/**
 When a quote is verified and when its token is taken, told by the tables alone.
 */
module EvidenceUse {
  import opened Wrappers
  import opened Text
  import opened Corpus
  import opened Store
  import opened Effects
  import opened EvidenceTokens

  /** The quote stands somewhere in the text. */
  ghost predicate StandsIn(quote: string, text: string) {
    exists before, after :: text == before + quote + after
  }

  lemma StandsWhereItOccurs(quote: string, text: string)
    ensures ContainsQuote(quote, text) <==> StandsIn(quote, text)
  {
    if at: nat :| at <= |text| && OccursAt(quote, text, at) {
      assert text == text[..at] + quote + text[at + |quote|..];
    }
    if before, after :| text == before + quote + after {
      assert OccursAt(quote, text, |before|);
    }
  }

  lemma FoundByItsId(passages: seq<Passage>, p: Passage)
    requires p in passages && forall i, j :: 0 <= i < j < |passages| ==> passages[i].id != passages[j].id
    ensures Lookup(passages, p.id) == Some(p)
  {
    var q := Lookup(passages, p.id).value;
    var i :| 0 <= i < |passages| && passages[i] == p;
    var j :| 0 <= j < |passages| && passages[j] == q;
  }

  /**
   A quote is verified iff it has eight characters, the project is active, it
   stands in the passage, and the token is fresh; it is answered with "no" iff
   it does not stand there.
   */
  lemma QuoteIsVerifiedIff(s: Store, lim: Limits, a: Actor, project: Id, p: Passage, quote: string, token: Id, secret: string,
                           now: int)
    requires Valid(s.corpus) && p in s.corpus.passages && LinkedTo(s.corpus, project, p.document)
    ensures var o := VerifyQuote(s, lim, a, project, p.id, quote, token, secret, now);
            && (o.Done? && o.reply <==>
                  |quote| >= 8 && IsActive(s, project) && StandsIn(quote, p.text)
                  && token !in s.tokens && forall t :: t in s.tokens ==> s.tokens[t].secret != secret)
            && (o.Done? && !o.reply <==> |quote| >= 8 && IsActive(s, project) && !StandsIn(quote, p.text))
            && (o.Done? && o.reply ==>
                  o.store.tokens == s.tokens[token := Token(
                    secret, p.id, s.corpus.documents[p.document].contentHash, quote, a.actorId, a.sessionId,
                    (now + lim.tokenTtlSeconds * 1_000_000) / 1_000_000, None, project,
                    VersionOf(s.corpus.documents[p.document]))])
            && (o.Done? && !o.reply ==> o.store.tokens == s.tokens)
  {
    FoundByItsId(s.corpus.passages, p);
    StandsWhereItOccurs(quote, p.text);
  }

  /**
   In a reachable state a token is taken iff it is presented in its own active
   project, by its actor and session, for the first time, before its expiry,
   while the document keeps its version; the evidence then copies the token.
   */
  lemma TokenIsTakenIff(s: Store, a: Actor, project: Id, secret: string, evidence: Id, now: int, t: Id)
    requires TokenInv(s) && t in s.tokens && s.tokens[t].secret == secret
    ensures Lookup(s.corpus.passages, s.tokens[t].passage).Some?
    ensures var o, k := SubmitEvidence(s, a, project, secret, evidence, now), s.tokens[t];
            var d := Lookup(s.corpus.passages, k.passage).value.document;
            && d in s.corpus.documents
            && (o.Done? <==>
                  IsActive(s, project) && k.project == project && LinkedTo(s.corpus, project, d)
                  && k.issuedTo == a.actorId && k.issuedSession == a.sessionId && k.consumedAt.None?
                  && now <= k.expires * 1_000_000 && VersionOf(s.corpus.documents[d]) == k.sourceVersion
                  && evidence !in s.evidence && !HasHistory(s.history, evidence))
            && (o.Done? ==>
                  o.store.evidence == s.evidence[evidence := Evidence(k.passage, d, k.documentHash, k.quote, a.actorId, k.sourceVersion)]
                  && o.store.tokens == s.tokens[t := k.(consumedAt := Some(now / 1_000_000))])
  {
    assert Quotes(s.corpus, s.tokens[t]);
    if Presents(s, project, secret, t) {
      SubmissionOutcome(s, a, project, secret, evidence, now, t);
      RedeemingEffect(s, a, project, secret, evidence, now);
    } else {
      assert forall u :: !Presents(s, project, secret, u);
    }
  }
}
