/**
 When a preview is created, when it is authorized, and what either call answers,
 in every state that a run can reach.
 */
module PreviewOutcome {
  import opened Wrappers
  import opened ApprovalPreview

  predicate IsNegative(v: Option<int>) {
    v.Some? && v.value < 0
  }

  /** The ceiling in force: the given one, or else the cost limit, or else nothing. */
  function CeilingOf(given: Option<int>, maxCost: Option<int>): int {
    match given
    case Some(v) => v
    case None => if maxCost.Some? then maxCost.value else 0
  }

  /**
   Caps are refused iff a stored value is negative or the stored effective cap
   exceeds a ceiling; an effective cap that is not stored is the lower ceiling.
   */
  lemma CapsAreRefusedIff(raw: RawCaps)
    ensures CapsOf(raw).None? <==>
            || IsNegative(raw.maxCost) || IsNegative(raw.human) || IsNegative(raw.profile) || IsNegative(raw.effective)
            || IsNegative(raw.inputTokens) || IsNegative(raw.outputTokens) || IsNegative(raw.providerCalls)
            || (raw.effective.Some? && (raw.effective.value > CeilingOf(raw.human, raw.maxCost)
                                        || raw.effective.value > CeilingOf(raw.profile, raw.maxCost)))
    ensures CapsOf(raw).Some? ==>
              var c := CapsOf(raw).value;
              && c.human == CeilingOf(raw.human, raw.maxCost) && c.profile == CeilingOf(raw.profile, raw.maxCost)
              && (raw.effective.Some? ==> c.effective == raw.effective.value)
              && (raw.effective.None? ==> c.effective == c.human || c.effective == c.profile)
              && (raw.providerCalls.None? ==> c.providerCalls == 1)
              && (raw.providerCalls.Some? ==> c.providerCalls == raw.providerCalls.value)
  {
  }

  /** Both lifetimes are at least five minutes; a preview lives a week at most, an approval a day and no longer than its preview. */
  predicate LifetimesOk(previewTtl: int, approvalTtl: int) {
    300 <= approvalTtl <= 86_400 && approvalTtl <= previewTtl <= 604_800
  }

  /** The call is an administrator's, with lawful lifetimes, and its preparation can be loaded with its caps. */
  predicate MayPrepare(w: World, preparation: Id, admin: bool, previewTtl: int, approvalTtl: int, loads: bool) {
    admin && LifetimesOk(previewTtl, approvalTtl) && loads && CapsOf(w.chainOf(preparation).caps).Some?
  }

  lemma ReceiptIsUnique(digest: string -> string, s: State, p: Preview, q: Preview)
    requires Inv(digest, s) && p in s.previews && q in s.previews && p.chain.receipt == q.chain.receipt
    ensures p == q
  {
    var i :| 0 <= i < |s.previews| && s.previews[i] == p;
    var j :| 0 <= j < |s.previews| && s.previews[j] == q;
  }

  lemma IdIsUnique(digest: string -> string, s: State, p: Preview, q: Preview)
    requires Inv(digest, s) && p in s.previews && q in s.previews && p.id == q.id
    ensures p == q
  {
    var i :| 0 <= i < |s.previews| && s.previews[i] == p;
    var j :| 0 <= j < |s.previews| && s.previews[j] == q;
  }

  /** The receipt's own preview is returned iff it has one for this release. */
  lemma PreviewIsReturnedIff(w: World, s: State, preparation: Id, admin: bool, previewTtl: int, approvalTtl: int, now: int,
                             loads: bool, p: Preview)
    requires Inv(w.digest, s)
    ensures var (after, outcome) := CreatePreview(w, s, preparation, admin, previewTtl, approvalTtl, now, loads);
            && (outcome == Existing(p) <==>
                  && MayPrepare(w, preparation, admin, previewTtl, approvalTtl, loads) && p in s.previews
                  && p.chain.receipt == w.chainOf(preparation).receipt && p.chain.release == w.chainOf(preparation).release)
            && (outcome == Existing(p) ==> after == s)
  {
    var chain := w.chainOf(preparation);
    var found := FindByReceipt(s.previews, chain.receipt, chain.release);
    if found.Some? && p in s.previews && p.chain.receipt == chain.receipt {
      ReceiptIsUnique(w.digest, s, found.value, p);
    }
  }

  /** A preview is created iff its receipt has none, one provider call is allowed, and its hash is new. */
  lemma PreviewIsCreatedIff(w: World, s: State, preparation: Id, admin: bool, previewTtl: int, approvalTtl: int, now: int,
                            loads: bool, caps: Caps)
    requires CapsOf(w.chainOf(preparation).caps) == Some(caps)
    ensures var (after, outcome) := CreatePreview(w, s, preparation, admin, previewTtl, approvalTtl, now, loads);
            var p := NewPreview(w, preparation, caps, previewTtl, approvalTtl, now);
            && (outcome.Created? <==>
                  && MayPrepare(w, preparation, admin, previewTtl, approvalTtl, loads) && caps.providerCalls == 1
                  && forall q :: q in s.previews ==> q.chain.receipt != w.chainOf(preparation).receipt && q.id != p.id)
            && (outcome.Created? ==> outcome.value == p && after == State(s.previews + [p], s.approvals))
            && (!outcome.Created? ==> after == s)
            && p.preparation == preparation && p.chain == w.chainOf(preparation) && p.caps == caps
            && p.approvalExpires == (now + approvalTtl * 1_000_000) / 100 * 100
            && p.previewExpires == (now + previewTtl * 1_000_000) / 100 * 100
  {
  }

  /** The caller is an administrator and gives the preview's own phrase before both expiries; the preparation is still what it was. */
  predicate MayAuthorize(w: World, p: Preview, phrase: string, admin: bool, checked: int, loads: bool) {
    && admin && phrase == "APPROVE MR-4B1 CANARY " + p.id && checked < p.previewExpires && checked < p.approvalExpires && loads
    && w.chainOf(p.preparation).snapshotHash == p.chain.snapshotHash
    && w.chainOf(p.preparation).receiptHash == p.chain.receiptHash
    && w.chainOf(p.preparation).handoffHash == p.chain.handoffHash
  }

  lemma StoredPreviewIsFound(digest: string -> string, s: State, p: Preview)
    requires Inv(digest, s) && p in s.previews
    ensures FindPreview(s.previews, p.id) == Some(p) && PreviewOk(digest, p)
  {
    var found := FindPreview(s.previews, p.id);
    IdIsUnique(digest, s, found.value, p);
    var i :| 0 <= i < |s.previews| && s.previews[i] == p;
  }

  /** A preview turns into its approval iff it may be authorized, has none yet, and no older activity stands against it. */
  lemma ApprovalIsCreatedIff(w: World, s: State, p: Preview, phrase: string, admin: bool, checked: int, stamped: int,
                             loads: bool, legacyActivity: bool)
    requires Inv(w.digest, s) && p in s.previews
    ensures var (after, outcome) := AuthorizePreview(w, s, p.id, phrase, admin, checked, stamped, loads, legacyActivity);
            var a := Approval(p.id, p.sealed.hash, p.chain, p.caps.effective, 1, stamped / 1000 * 1000, p.approvalExpires);
            && (outcome.Created? <==>
                  && MayAuthorize(w, p, phrase, admin, checked, loads) && !legacyActivity
                  && forall b :: b in s.approvals ==> b.preview != p.id)
            && (outcome.Created? ==> outcome.value == a && after == State(s.previews, s.approvals + [a]))
            && (!outcome.Created? ==> after == s)
            && (outcome.Existing? <==>
                  MayAuthorize(w, p, phrase, admin, checked, loads) && exists b :: b in s.approvals && b.preview == p.id)
            && (outcome.Existing? ==> outcome.value in s.approvals && outcome.value.preview == p.id)
  {
    StoredPreviewIsFound(w.digest, s, p);
  }

  /** An id that no preview has is refused. */
  lemma UnknownPreviewIsRefused(w: World, s: State, id: string, phrase: string, admin: bool, checked: int, stamped: int,
                                loads: bool, legacyActivity: bool)
    requires forall p :: p in s.previews ==> p.id != id
    ensures AuthorizePreview(w, s, id, phrase, admin, checked, stamped, loads, legacyActivity) == (s, Refused)
  {
    assert FindPreview(s.previews, id).None?;
  }
}
