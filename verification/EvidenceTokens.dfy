/**
 Quotation tokens.  Over any interleaving of quoting, submitting, metadata
 edits, ingestion and expiry cleanup, every evidence row comes from exactly one
 token, no token yields two, and what it records is what was verified.
 */
module EvidenceTokens {
  import opened Wrappers
  import opened Corpus
  import opened Store
  import opened Effects

  /** Audit row `m` records that a token became evidence. */
  ghost predicate IsSubmission(s: Store, m: nat) {
    m < |s.audit| && s.audit[m].event.EvidenceSubmitted?
  }

  /** A token quotes its stored passage and carries the hash of that passage's document. */
  ghost predicate Quotes(c: Corpus, t: Token) {
    && Lookup(c.passages, t.passage).Some?
    && var p := Lookup(c.passages, t.passage).value;
       && ContainsQuote(t.quote, p.text)
       && p.document in c.documents
       && c.documents[p.document].contentHash == t.documentHash
  }

  /** Evidence copies its token's binding. */
  ghost predicate CopiedFrom(c: Corpus, e: Evidence, t: Token) {
    && e.passage == t.passage && e.documentHash == t.documentHash && e.quote == t.quote
    && e.sourceVersion == t.sourceVersion && e.verifiedBy == t.issuedTo
    && Lookup(c.passages, e.passage).Some? && Lookup(c.passages, e.passage).value.document == e.document
  }

  /** The submission was made by the actor, in the session and project, the token was issued to. */
  ghost predicate SubmittedBy(row: AuditRow, t: Token) {
    row.actorId == t.issuedTo && row.session == t.issuedSession && row.project == Some(t.project)
  }

  ghost predicate TokensQuote(s: Store) {
    forall t :: t in s.tokens ==> Quotes(s.corpus, s.tokens[t])
  }

  ghost predicate SecretsUnique(s: Store) {
    forall t, u :: t in s.tokens && u in s.tokens && s.tokens[t].secret == s.tokens[u].secret ==> t == u
  }

  /** What a recorded submission guarantees. */
  ghost predicate Sound(s: Store, m: nat)
    requires IsSubmission(s, m)
  {
    var t, e := s.audit[m].event.token, s.audit[m].event.evidence;
    && t in s.tokens && s.tokens[t].consumedAt.Some?
    && e in s.evidence && CopiedFrom(s.corpus, s.evidence[e], s.tokens[t])
    && SubmittedBy(s.audit[m], s.tokens[t])
  }

  ghost predicate SubmissionsSound(s: Store) {
    forall m: nat :: IsSubmission(s, m) ==> Sound(s, m)
  }

  /** Two submissions share neither their token nor their evidence. */
  ghost predicate OneToOne(s: Store) {
    forall m: nat, n: nat :: IsSubmission(s, m) && IsSubmission(s, n) && m != n ==>
      s.audit[m].event.token != s.audit[n].event.token && s.audit[m].event.evidence != s.audit[n].event.evidence
  }

  ghost predicate SubmittedAt(s: Store, m: nat, e: Id) {
    IsSubmission(s, m) && s.audit[m].event.evidence == e
  }

  ghost predicate AllSubmitted(s: Store) {
    forall e :: e in s.evidence ==> exists m: nat :: SubmittedAt(s, m, e)
  }

  ghost predicate TokenInv(s: Store) {
    Valid(s.corpus) && TokensQuote(s) && SecretsUnique(s) && SubmissionsSound(s) && OneToOne(s) && AllSubmitted(s)
  }

  // ----- frame -----

  /** The audit log is unchanged or gains a row that is not a submission. */
  ghost predicate NoSubmission(s: Store, t: Store) {
    t.audit == s.audit || exists row :: t.audit == s.audit + [row] && !row.event.EvidenceSubmitted?
  }

  /** Tokens keep their binding; a consumed token stays consumed. */
  ghost predicate SameBindings(s: Store, t: Store) {
    && t.tokens.Keys == s.tokens.Keys
    && forall k :: k in s.tokens ==>
         t.tokens[k].(consumedAt := None) == s.tokens[k].(consumedAt := None)
         && (s.tokens[k].consumedAt.Some? ==> t.tokens[k] == s.tokens[k])
  }

  ghost predicate Benign(s: Store, t: Store) {
    && SameBindings(s, t) && t.evidence == s.evidence && NoSubmission(s, t)
    && Extends(s.corpus, t.corpus) && (Valid(s.corpus) ==> Valid(t.corpus))
  }

  lemma SameSubmissions(s: Store, t: Store)
    requires NoSubmission(s, t)
    ensures forall m: nat :: IsSubmission(t, m) <==> IsSubmission(s, m)
    ensures forall m: nat :: IsSubmission(s, m) ==> m < |t.audit| && t.audit[m] == s.audit[m]
    ensures t.evidence == s.evidence && AllSubmitted(s) ==> AllSubmitted(t)
  {
    if t.evidence == s.evidence && AllSubmitted(s) {
      forall e | e in t.evidence ensures exists m: nat :: SubmittedAt(t, m, e) {
        var m: nat :| SubmittedAt(s, m, e);
        assert SubmittedAt(t, m, e);
      }
    }
  }

  lemma QuotesSurvive(c: Corpus, later: Corpus, t: Token)
    requires Extends(c, later) && Quotes(c, t)
    ensures Quotes(later, t)
  {
    ExtendsKeepsLookup(c, later, t.passage);
  }

  lemma BenignKeeps(s: Store, t: Store)
    requires TokenInv(s) && Benign(s, t)
    ensures TokenInv(t)
  {
    SameSubmissions(s, t);
    forall k | k in t.tokens ensures Quotes(t.corpus, t.tokens[k]) {
      QuotesSurvive(s.corpus, t.corpus, s.tokens[k]);
    }
    forall k, u | k in t.tokens && u in t.tokens && t.tokens[k].secret == t.tokens[u].secret ensures k == u {
      assert s.tokens[k].secret == s.tokens[u].secret;
    }
    forall m: nat | IsSubmission(t, m) ensures Sound(t, m) {
      assert Sound(s, m);
      ExtendsKeepsLookup(s.corpus, t.corpus, s.evidence[s.audit[m].event.evidence].passage);
    }
  }

  /** Every step but quoting and submitting is benign. */
  lemma OtherStepsAreBenign(s: Store, lim: Limits, step: Step)
    requires !step.DoVerifyQuote? && !step.DoSubmitEvidence?
    ensures Benign(s, Apply(s, lim, step))
  {
    match step
    case DoRequestApproval(a, p, g, x) => FilingIsBenign(s, lim, a, p, g, x);
    case DoDecideApproval(a, x, ok) => DecidingIsBenign(s, a, x, ok);
    case DoCreateProject(a, p) => OpeningIsBenign(s, a, p);
    case DoArchiveProject(a, p) => ArchivingIsBenign(s, a, p);
    case DoIngestFile(a, p, u) => IngestingIsBenign(s, a, p, u);
    case DoUpdateMetadata(a, p, d, e, r) => RevisingIsBenign(s, a, p, d, e, r);
    case DoCleanupTokens(a, now) => CleaningIsBenign(s, a, now);
    case _ => CreatingIsBenign(s, lim, step);
  }

  lemma OpeningIsBenign(s: Store, a: Actor, project: Id)
    ensures Benign(s, Commit(s, CreateProject(s, a, project)))
  {
  }

  lemma ArchivingIsBenign(s: Store, a: Actor, project: Id)
    ensures Benign(s, Commit(s, ArchiveProject(s, a, project)))
  {
  }

  lemma IngestingIsBenign(s: Store, a: Actor, project: Id, u: Upload)
    ensures Benign(s, Commit(s, IngestFile(s, a, project, u)))
  {
  }

  lemma RevisingIsBenign(s: Store, a: Actor, project: Id, document: Id, edit: Edit, reason: string)
    ensures Benign(s, Commit(s, UpdateMetadata(s, a, project, document, edit, reason)))
  {
  }

  lemma CleaningIsBenign(s: Store, a: Actor, now: int)
    ensures Benign(s, Commit(s, CleanupTokens(s, a, now)))
  {
  }

  lemma CreatingIsBenign(s: Store, lim: Limits, step: Step)
    requires Creation(step).Some?
    ensures Benign(s, Apply(s, lim, step))
  {
    CreationIsInsertion(s, lim, step);
    var (a, n) := Creation(step).value;
    if CreateItem(s, lim, a, n).Done? {
      InsertionEffect(s, lim, a, n);
    }
  }

  lemma FilingIsBenign(s: Store, lim: Limits, a: Actor, project: Id, target: Target, id: Id)
    ensures Benign(s, Commit(s, RequestApproval(s, lim, a, project, target, id)))
  {
    FilingEffect(s, lim, a, project, target, id);
    var t := Commit(s, RequestApproval(s, lim, a, project, target, id));
    assert t == s || t.audit == s.audit + [Row(a, Some(project), ApprovalRequested(target), true)];
  }

  lemma DecidingIsBenign(s: Store, a: Actor, id: Id, approve: bool)
    ensures Benign(s, Commit(s, DecideApproval(s, a, id, approve)))
  {
    DecidingEffect(s, a, id, approve);
    if DecideApproval(s, a, id, approve).Done? {
      var r := s.requests[FindPending(s.requests, id).value];
      var t := Commit(s, DecideApproval(s, a, id, approve));
      assert t.audit == s.audit + [Row(a, Some(r.project), ApprovalDecided(r.id, r.target, approve), true)];
    }
  }

  // ----- quoting and submitting -----

  lemma QuotingKeepsTokens(s: Store, lim: Limits, a: Actor, project: Id, passage: Id, quote: string,
                           token: Id, secret: string, now: int)
    requires TokenInv(s)
    ensures TokenInv(Commit(s, VerifyQuote(s, lim, a, project, passage, quote, token, secret, now)))
  {
    QuotingEffect(s, lim, a, project, passage, quote, token, secret, now);
    var o := VerifyQuote(s, lim, a, project, passage, quote, token, secret, now);
    if o.Done? {
      if o.store == Mismatch(s, a, project, passage) {
        assert o.store.audit == s.audit + [Row(a, Some(project), QuoteVerified(passage), false)];
        BenignKeeps(s, o.store);
      } else {
        IssuedKeeps(s, lim, a, project, passage, quote, token, secret, now);
      }
    }
  }

  lemma IssuedKeeps(s: Store, lim: Limits, a: Actor, project: Id, passage: Id, quote: string,
                    token: Id, secret: string, now: int)
    requires TokenInv(s) && token !in s.tokens && !SecretUsed(s, secret)
    requires PassageInProject(s.corpus, project, passage).Some?
    requires var (p, d) := PassageInProject(s.corpus, project, passage).value; ContainsQuote(quote, p.text)
    ensures var (p, d) := PassageInProject(s.corpus, project, passage).value;
            TokenInv(Issued(s, lim, a, project, passage, d, quote, token, secret, now))
  {
    var (p, d) := PassageInProject(s.corpus, project, passage).value;
    var t := Issued(s, lim, a, project, passage, d, quote, token, secret, now);
    assert t.audit == s.audit + [Row(a, Some(project), QuoteVerified(passage), true)];
    SameSubmissions(s, t);
    assert Quotes(t.corpus, t.tokens[token]);
    forall m: nat | IsSubmission(t, m) ensures Sound(t, m) {
      assert Sound(s, m);
    }
  }

  lemma RedeemingKeepsTokens(s: Store, a: Actor, project: Id, secret: string, evidence: Id, now: int)
    requires TokenInv(s)
    ensures TokenInv(Commit(s, SubmitEvidence(s, a, project, secret, evidence, now)))
  {
    RedeemingEffect(s, a, project, secret, evidence, now);
    var o := SubmitEvidence(s, a, project, secret, evidence, now);
    if o.Done? {
      var k :| Presents(s, project, secret, k)
               && evidence !in s.evidence && !HasHistory(s.history, evidence)
               && var (p, d) := PassageInProject(s.corpus, project, s.tokens[k].passage).value;
                  TokenProblem(s.tokens[k], p, d, a, now).None?
                  && o.store == Redeemed(s, a, project, k, p.document, evidence, now);
      RedeemedKeeps(s, a, project, k, evidence, now);
    }
  }

  lemma RedeemedKeeps(s: Store, a: Actor, project: Id, k: Id, evidence: Id, now: int)
    requires TokenInv(s) && k in s.tokens && s.tokens[k].project == project && evidence !in s.evidence
    requires PassageInProject(s.corpus, project, s.tokens[k].passage).Some?
    requires var (p, d) := PassageInProject(s.corpus, project, s.tokens[k].passage).value;
             TokenProblem(s.tokens[k], p, d, a, now).None?
    ensures var (p, d) := PassageInProject(s.corpus, project, s.tokens[k].passage).value;
            TokenInv(Redeemed(s, a, project, k, p.document, evidence, now))
  {
    var (p, d) := PassageInProject(s.corpus, project, s.tokens[k].passage).value;
    var t := Redeemed(s, a, project, k, p.document, evidence, now);
    RedeemedTables(s, t, a, project, k, p.document, evidence, now);
    RedeemedTokens(s, t, k);
    RedeemedRows(s, t, k, evidence);
  }

  /** The redeemed token becomes consumed and nothing else about tokens changes. */
  ghost predicate Consumes(s: Store, t: Store, k: Id) {
    && k in s.tokens && t.tokens.Keys == s.tokens.Keys && t.corpus == s.corpus
    && s.tokens[k].consumedAt.None? && t.tokens[k].consumedAt.Some?
    && t.tokens[k].(consumedAt := None) == s.tokens[k]
    && forall u :: u in s.tokens && u != k ==> t.tokens[u] == s.tokens[u]
  }

  /** The audit log gains the submission of `k` as `evidence`. */
  ghost predicate Records(s: Store, t: Store, k: Id, evidence: Id) {
    && |t.audit| == |s.audit| + 1 && s.audit == t.audit[..|s.audit|]
    && t.audit[|s.audit|].event == EvidenceSubmitted(k, evidence)
    && evidence !in s.evidence && evidence in t.evidence
    && t.evidence == s.evidence[evidence := t.evidence[evidence]]
  }

  lemma RedeemedTables(s: Store, t: Store, a: Actor, project: Id, k: Id, document: Id, evidence: Id, now: int)
    requires k in s.tokens && s.tokens[k].consumedAt.None? && evidence !in s.evidence
    requires s.tokens[k].issuedTo == a.actorId && s.tokens[k].issuedSession == a.sessionId
    requires s.tokens[k].project == project
    requires Lookup(s.corpus.passages, s.tokens[k].passage).Some?
    requires Lookup(s.corpus.passages, s.tokens[k].passage).value.document == document
    requires t == Redeemed(s, a, project, k, document, evidence, now)
    ensures Consumes(s, t, k) && Records(s, t, k, evidence)
    ensures CopiedFrom(t.corpus, t.evidence[evidence], t.tokens[k]) && SubmittedBy(t.audit[|s.audit|], t.tokens[k])
  {
  }

  lemma RedeemedTokens(s: Store, t: Store, k: Id)
    requires TokensQuote(s) && SecretsUnique(s) && Consumes(s, t, k)
    ensures TokensQuote(t) && SecretsUnique(t)
  {
    forall u | u in t.tokens ensures Quotes(t.corpus, t.tokens[u]) {
      assert Quotes(s.corpus, s.tokens[u]);
    }
    forall u, v | u in t.tokens && v in t.tokens && t.tokens[u].secret == t.tokens[v].secret ensures u == v {
      assert s.tokens[u].secret == s.tokens[v].secret;
    }
  }

  /** Old rows are as before and name neither the token nor the evidence just used. */
  lemma RedeemedOldRow(s: Store, t: Store, k: Id, evidence: Id, m: nat)
    requires SubmissionsSound(s) && Consumes(s, t, k) && Records(s, t, k, evidence) && m < |s.audit|
    ensures t.audit[m] == s.audit[m] && (IsSubmission(t, m) <==> IsSubmission(s, m))
    ensures IsSubmission(t, m) ==>
              Sound(t, m) && t.audit[m].event.token != k && t.audit[m].event.evidence != evidence
  {
    assert t.audit[m] == t.audit[..|s.audit|][m];
    if IsSubmission(s, m) {
      assert Sound(s, m);
    }
  }

  lemma RedeemedRows(s: Store, t: Store, k: Id, evidence: Id)
    requires SubmissionsSound(s) && OneToOne(s) && AllSubmitted(s)
    requires Consumes(s, t, k) && Records(s, t, k, evidence)
    requires CopiedFrom(t.corpus, t.evidence[evidence], t.tokens[k]) && SubmittedBy(t.audit[|s.audit|], t.tokens[k])
    ensures SubmissionsSound(t) && OneToOne(t) && AllSubmitted(t)
  {
    var last := |s.audit|;
    forall m: nat | IsSubmission(t, m) ensures Sound(t, m) {
      if m == last {
        assert Sound(t, last);
      } else {
        RedeemedOldRow(s, t, k, evidence, m);
      }
    }
    RedeemedOneToOne(s, t, k, evidence);
    RedeemedAllSubmitted(s, t, k, evidence);
  }

  lemma RedeemedOneToOne(s: Store, t: Store, k: Id, evidence: Id)
    requires SubmissionsSound(s) && OneToOne(s)
    requires Consumes(s, t, k) && Records(s, t, k, evidence)
    ensures OneToOne(t)
  {
    forall m: nat, n: nat | IsSubmission(t, m) && IsSubmission(t, n) && m < n
      ensures t.audit[m].event.token != t.audit[n].event.token
      ensures t.audit[m].event.evidence != t.audit[n].event.evidence
    {
      RedeemedOldRow(s, t, k, evidence, m);
      if n < |s.audit| {
        RedeemedOldRow(s, t, k, evidence, n);
      }
    }
  }

  lemma RedeemedAllSubmitted(s: Store, t: Store, k: Id, evidence: Id)
    requires AllSubmitted(s) && Records(s, t, k, evidence)
    ensures AllSubmitted(t)
  {
    forall e | e in t.evidence ensures exists m: nat :: SubmittedAt(t, m, e) {
      if e == evidence {
        assert SubmittedAt(t, |s.audit|, e);
      } else {
        var m: nat :| SubmittedAt(s, m, e);
        assert t.audit[m] == t.audit[..|s.audit|][m];
        assert SubmittedAt(t, m, e);
      }
    }
  }

  lemma StepKeepsTokens(s: Store, lim: Limits, step: Step)
    requires TokenInv(s)
    ensures TokenInv(Apply(s, lim, step))
  {
    match step
    case DoVerifyQuote(a, p, ps, q, t, sec, now) => QuotingKeepsTokens(s, lim, a, p, ps, q, t, sec, now);
    case DoSubmitEvidence(a, p, sec, e, now) => RedeemingKeepsTokens(s, a, p, sec, e, now);
    case _ =>
      OtherStepsAreBenign(s, lim, step);
      BenignKeeps(s, Apply(s, lim, step));
  }

  lemma {:induction false} RunKeepsTokens(s: Store, lim: Limits, steps: seq<Step>)
    requires TokenInv(s)
    ensures TokenInv(Run(s, lim, steps))
    decreases |steps|
  {
    if steps != [] {
      StepKeepsTokens(s, lim, steps[0]);
      RunKeepsTokens(Apply(s, lim, steps[0]), lim, steps[1..]);
    }
  }

  /**
   The provenance theorem.  In every reachable state each evidence row has one
   submission, by the actor, session and project its token was issued to; the
   row quotes its stored passage verbatim under the stored content hash; and
   one token accounts for at most one row.
   */
  lemma EvidenceProvenance(lim: Limits, steps: seq<Step>, e: Id)
    requires e in Run(EMPTY_STORE, lim, steps).evidence
    ensures var s := Run(EMPTY_STORE, lim, steps);
            exists m: nat :: SubmittedAt(s, m, e) && Sound(s, m) && Quotes(s.corpus, s.tokens[s.audit[m].event.token])
              && forall n: nat :: IsSubmission(s, n) && n != m ==>
                   s.audit[n].event.token != s.audit[m].event.token && s.audit[n].event.evidence != e
  {
    RunKeepsTokens(EMPTY_STORE, lim, steps);
    ProvenanceOf(Run(EMPTY_STORE, lim, steps), e);
  }

  lemma ProvenanceOf(s: Store, e: Id)
    requires TokenInv(s) && e in s.evidence
    ensures exists m: nat :: SubmittedAt(s, m, e) && Sound(s, m) && Quotes(s.corpus, s.tokens[s.audit[m].event.token])
              && forall n: nat :: IsSubmission(s, n) && n != m ==>
                   s.audit[n].event.token != s.audit[m].event.token && s.audit[n].event.evidence != e
  {
    var m: nat :| SubmittedAt(s, m, e);
    assert Sound(s, m);
  }

  // ----- expiry -----

  /** Cleanup only marks tokens that a submission at the same reading would call expired. */
  lemma CleanupSparesLiveTokens(t: Token, p: Passage, d: Document, a: Actor, now: int)
    ensures TokenProblem(t, p, d, a, now).None? ==> Swept(t, now) == t
    ensures IsStale(t, now) <==> t.consumedAt.None? && Expired(t, now) && t.expires != Seconds(now)
  {
  }

  /** The token a secret presents is unique, so a submission's outcome is determined by it. */
  lemma SubmissionOutcome(s: Store, a: Actor, project: Id, secret: string, evidence: Id, now: int, t: Id)
    requires SecretsUnique(s) && Presents(s, project, secret, t)
    ensures SubmitEvidence(s, a, project, secret, evidence, now).Done? <==>
            var (p, d) := PassageInProject(s.corpus, project, s.tokens[t].passage).value;
            && IsActive(s, project) && TokenProblem(s.tokens[t], p, d, a, now).None?
            && evidence !in s.evidence && !HasHistory(s.history, evidence)
  {
  }

  /** Running the cleanup earlier never changes whether a submission succeeds. */
  lemma CleanupIsInvisible(s: Store, admin: Actor, swept: int, a: Actor, project: Id, secret: string,
                           evidence: Id, now: int)
    requires TokenInv(s) && admin.IsAdmin() && swept <= now
    ensures SubmitEvidence(Commit(s, CleanupTokens(s, admin, swept)), a, project, secret, evidence, now).Done?
            <==> SubmitEvidence(s, a, project, secret, evidence, now).Done?
  {
    var t := Commit(s, CleanupTokens(s, admin, swept));
    CleaningIsBenign(s, admin, swept);
    BenignKeeps(s, t);
    if k :| Presents(s, project, secret, k) {
      SweptTokenOutcome(s, t, swept, a, project, k, now);
      assert Presents(t, project, secret, k);
      SubmissionOutcome(s, a, project, secret, evidence, now, k);
      SubmissionOutcome(t, a, project, secret, evidence, now, k);
    } else {
      forall k ensures !Presents(t, project, secret, k) {
        assert !Presents(s, project, secret, k);
      }
    }
  }

  lemma SweptTokenOutcome(s: Store, t: Store, swept: int, a: Actor, project: Id, k: Id, now: int)
    requires swept <= now && k in s.tokens && k in t.tokens && t.tokens[k] == Swept(s.tokens[k], swept)
    requires t.corpus == s.corpus && PassageInProject(s.corpus, project, s.tokens[k].passage).Some?
    ensures var (p, d) := PassageInProject(s.corpus, project, s.tokens[k].passage).value;
            TokenProblem(t.tokens[k], p, d, a, now).None? <==> TokenProblem(s.tokens[k], p, d, a, now).None?
  {
    var (p, d) := PassageInProject(s.corpus, project, s.tokens[k].passage).value;
    CleanupSparesLiveTokens(s.tokens[k], p, d, a, swept);
  }

  /** A verified quote leaves its token in the table, and the rest of a submission's guards as they were. */
  lemma VerifiedIsIssued(s: Store, lim: Limits, a: Actor, project: Id, passage: Id, quote: string, token: Id, secret: string,
                         now: int)
    requires var o := VerifyQuote(s, lim, a, project, passage, quote, token, secret, now); o.Done? && o.reply
    ensures PassageInProject(s.corpus, project, passage).Some?
    ensures var t := VerifyQuote(s, lim, a, project, passage, quote, token, secret, now).store;
            var (p, d) := PassageInProject(s.corpus, project, passage).value;
            && t.corpus == s.corpus && t.projects == s.projects && t.evidence == s.evidence && t.history == s.history
            && IsActive(s, project) && ContainsQuote(quote, p.text) && Presents(t, project, secret, token)
            && t.tokens[token] == Token(secret, passage, d.contentHash, quote, a.actorId, a.sessionId,
                                        Seconds(now + lim.tokenTtlSeconds * MICROS), None, project, VersionOf(d))
  {
    var t := VerifyQuote(s, lim, a, project, passage, quote, token, secret, now).store;
    assert token in t.tokens;
  }

  /**
   Verifying and then submitting.  With nothing in between, the same actor's
   submission succeeds exactly until the whole second the token names has
   passed; no other actor, session or project can use it.
   */
  lemma VerifiedQuoteRedeems(s: Store, lim: Limits, a: Actor, project: Id, passage: Id, quote: string,
                             token: Id, secret: string, now: int, b: Actor, evidence: Id, later: int)
    requires TokenInv(s)
    requires var o := VerifyQuote(s, lim, a, project, passage, quote, token, secret, now); o.Done? && o.reply
    requires evidence !in s.evidence && !HasHistory(s.history, evidence)
    ensures var t := VerifyQuote(s, lim, a, project, passage, quote, token, secret, now).store;
            SubmitEvidence(t, b, project, secret, evidence, later).Done? <==>
            (b.actorId == a.actorId && b.sessionId == a.sessionId
             && later <= Seconds(now + lim.tokenTtlSeconds * MICROS) * MICROS)
  {
    VerifiedIsIssued(s, lim, a, project, passage, quote, token, secret, now);
    QuotingKeepsTokens(s, lim, a, project, passage, quote, token, secret, now);
    var t := VerifyQuote(s, lim, a, project, passage, quote, token, secret, now).store;
    SubmissionOutcome(t, b, project, secret, evidence, later, token);
  }
}
