/**
 The live approval preview: an administrator turns a passed DNS receipt into one
 immutable preview, and its exact phrase into at most one approval.  The chain
 behind a preparation is fixed; whether it can be loaded varies from call to call.
 */
module ApprovalPreview {
  import opened Wrappers
  import opened Json
  import opened JsonReader
  import opened Sorting

  // ----- canonical JSON -----

  predicate Less(a: string, b: string) {
    b != "" && (a == "" || a[0] < b[0] || (a[0] == b[0] && Less(a[1..], b[1..])))
  }

  lemma {:induction false} LessTransitive(a: string, b: string, c: string)
    requires Less(a, b) && Less(b, c)
    ensures Less(a, c)
  {
    if a != "" && a[0] == b[0] && b[0] == c[0] {
      LessTransitive(a[1..], b[1..], c[1..]);
    }
  }

  lemma {:induction false} LessAsymmetric(a: string, b: string)
    requires Less(a, b)
    ensures !Less(b, a)
  {
    if a != "" && a[0] == b[0] {
      LessAsymmetric(a[1..], b[1..]);
    }
  }

  function InsertField(f: Field, fields: seq<Field>): seq<Field> {
    if fields == [] || Less(f.key, fields[0].key) then [f] + fields else [fields[0]] + InsertField(f, fields[1..])
  }

  /** sort_keys=True, for an object whose values are not objects themselves. */
  function SortKeys(fields: seq<Field>): seq<Field> {
    if fields == [] then [] else InsertField(fields[|fields| - 1], SortKeys(fields[..|fields| - 1]))
  }

  ghost predicate SortedKeys(fields: seq<Field>) {
    forall i, j :: 0 <= i < j < |fields| ==> !Less(fields[j].key, fields[i].key)
  }

  lemma {:induction false} InsertMembers(f: Field, fields: seq<Field>)
    ensures multiset(InsertField(f, fields)) == multiset(fields) + multiset{f}
    ensures |InsertField(f, fields)| == |fields| + 1
  {
    if fields != [] && !Less(f.key, fields[0].key) {
      InsertMembers(f, fields[1..]);
      assert fields == [fields[0]] + fields[1..];
    }
  }

  lemma {:induction false} InsertSorts(f: Field, fields: seq<Field>)
    requires SortedKeys(fields)
    ensures SortedKeys(InsertField(f, fields))
  {
    if fields == [] {
    } else if Less(f.key, fields[0].key) {
      forall j | 0 <= j < |fields| ensures !Less(fields[j].key, f.key) {
        if Less(fields[j].key, f.key) {
          LessTransitive(fields[j].key, f.key, fields[0].key);
          LessAsymmetric(f.key, fields[0].key);
        }
      }
    } else {
      var rest := InsertField(f, fields[1..]);
      InsertSorts(f, fields[1..]);
      InsertMembers(f, fields[1..]);
      forall j | 0 <= j < |rest| ensures !Less(rest[j].key, fields[0].key) {
        assert rest[j] in multiset(rest);
        if rest[j] != f {
          assert rest[j] in fields[1..];
        }
      }
    }
  }

  lemma {:induction false} SortKeysSorts(fields: seq<Field>)
    ensures SortedKeys(SortKeys(fields)) && multiset(SortKeys(fields)) == multiset(fields)
    ensures |SortKeys(fields)| == |fields|
  {
    if fields != [] {
      var init, last := fields[..|fields| - 1], fields[|fields| - 1];
      SortKeysSorts(init);
      InsertSorts(last, SortKeys(init));
      InsertMembers(last, SortKeys(init));
      assert fields == init + [last];
    }
  }

  lemma {:induction false} InsertLast(f: Field, fields: seq<Field>)
    requires forall i :: 0 <= i < |fields| ==> !Less(f.key, fields[i].key)
    ensures InsertField(f, fields) == fields + [f]
  {
    if fields != [] {
      InsertLast(f, fields[1..]);
      assert fields + [f] == [fields[0]] + (fields[1..] + [f]);
    }
  }

  /** Sorting sorted keys changes nothing. */
  lemma {:induction false} SortKeysIdempotent(fields: seq<Field>)
    requires SortedKeys(fields)
    ensures SortKeys(fields) == fields
  {
    if fields != [] {
      SortKeysIdempotent(fields[..|fields| - 1]);
      InsertLast(fields[|fields| - 1], fields[..|fields| - 1]);
    }
  }

  /** Taking an inserted field out again leaves the other fields. */
  lemma {:induction false} RemoveInserted(f: Field, fields: seq<Field>)
    requires forall i :: 0 <= i < |fields| ==> fields[i].key != f.key
    ensures Remove(InsertField(f, fields), f.key) == fields
    ensures Get(InsertField(f, fields), f.key) == Some(f.value)
  {
    if fields == [] || Less(f.key, fields[0].key) {
      assert ([f] + fields)[1..] == fields;
    } else {
      var rest := InsertField(f, fields[1..]);
      RemoveInserted(f, fields[1..]);
      assert ([fields[0]] + rest)[1..] == rest && fields == [fields[0]] + fields[1..];
    }
  }

  function Canonical(fields: seq<Field>): string {
    Dumps(Object(SortKeys(fields)))
  }

  predicate IsFlat(fields: seq<Field>) {
    forall i :: 0 <= i < |fields| ==> fields[i].value.Text? || fields[i].value.Number?
  }

  lemma {:induction false} FlatFieldsAreDictionaries(fields: seq<Field>)
    requires IsFlat(fields)
    ensures FieldsAreDictionaries(fields)
  {
    if fields != [] {
      FlatFieldsAreDictionaries(fields[1..]);
    }
  }

  // ----- the preview's hash -----

  const PHRASE_PREFIX := "APPROVE MR-4B1 CANARY "
  const PHRASE_HASH := "confirmation_phrase_hash"

  /** The hash input of a preview: distinct flat fields, none of them the phrase hash. */
  predicate IsBinding(fields: seq<Field>) {
    IsFlat(fields) && HaveDistinctKeys(fields) && forall i :: 0 <= i < |fields| ==> fields[i].key != PHRASE_HASH
  }

  /** The stored text and the two hashes of a binding. */
  datatype Sealed = Sealed(json: string, hash: string, phraseHash: string)

  function Seal(digest: string -> string, binding: seq<Field>): Sealed {
    var hash := digest(Canonical(binding));
    var phraseHash := digest(Quoted(PHRASE_PREFIX + hash));
    Sealed(Canonical(binding + [Field(PHRASE_HASH, Text(phraseHash))]), hash, phraseHash)
  }

  /** The checks a stored preview has to pass whenever it is read. */
  predicate PassesChecks(digest: string -> string, s: Sealed) {
    var value := Loads(s.json);
    && value.Some? && value.value.Object?
    && s.phraseHash == digest(Quoted(PHRASE_PREFIX + s.hash))
    && Get(value.value.fields, PHRASE_HASH) == Some(Text(s.phraseHash))
    && digest(Canonical(Remove(value.value.fields, PHRASE_HASH))) == s.hash
  }

  lemma SortedStaysFlat(fields: seq<Field>)
    requires IsFlat(fields)
    ensures IsFlat(SortKeys(fields))
  {
    SortKeysSorts(fields);
    var sorted := SortKeys(fields);
    forall i | 0 <= i < |sorted| ensures sorted[i].value.Text? || sorted[i].value.Number? {
      assert sorted[i] in multiset(fields);
    }
  }

  lemma SortedKeepsDistinct(fields: seq<Field>)
    requires HaveDistinctKeys(fields)
    ensures HaveDistinctKeys(SortKeys(fields))
  {
    SortKeysSorts(fields);
    var sorted := SortKeys(fields);
    assert Distinct(fields);
    PermutationIsDistinct(fields, sorted);
    forall i, j | 0 <= i < j < |sorted| ensures sorted[i].key != sorted[j].key {
      assert sorted[i] in multiset(fields) && sorted[j] in multiset(fields);
    }
  }

  /** What was sealed passes every later check. */
  lemma SealPasses(digest: string -> string, binding: seq<Field>)
    requires IsBinding(binding)
    ensures PassesChecks(digest, Seal(digest, binding))
  {
    var s := Seal(digest, binding);
    var phrase := Field(PHRASE_HASH, Text(s.phraseHash));
    var fields := binding + [phrase];
    SealedFieldsRead(fields);
    assert fields[..|fields| - 1] == binding;
    SortKeysSorts(binding);
    forall i | 0 <= i < |binding| ensures SortKeys(binding)[i].key != PHRASE_HASH {
      assert SortKeys(binding)[i] in multiset(binding);
    }
    RemoveInserted(phrase, SortKeys(binding));
    SortKeysIdempotent(SortKeys(binding));
  }

  lemma SealedFieldsRead(fields: seq<Field>)
    requires IsFlat(fields) && HaveDistinctKeys(fields)
    ensures Loads(Canonical(fields)) == Some(Object(SortKeys(fields)))
  {
    SortedStaysFlat(fields);
    SortedKeepsDistinct(fields);
    FlatFieldsAreDictionaries(SortKeys(fields));
    LoadsDumps(Object(SortKeys(fields)));
  }

  // ----- previews and approvals -----

  type Id = nat

  /** The immutable preparation chain behind a preview. */
  datatype Chain = Chain(receipt: Id, receiptHash: string, snapshotHash: string, handoffHash: string, release: string,
                         run: Id, fields: seq<Field>, caps: RawCaps)

  /** The caps as the snapshot stores them; a missing value takes its default. */
  datatype RawCaps = RawCaps(maxCost: Option<int>, human: Option<int>, profile: Option<int>, effective: Option<int>,
                             inputTokens: Option<int>, outputTokens: Option<int>, providerCalls: Option<int>)

  datatype Caps = Caps(human: nat, profile: nat, effective: nat, inputTokens: nat, outputTokens: nat, providerCalls: nat)

  function OrElse(v: Option<int>, default: int): int {
    if v.Some? then v.value else default
  }

  function Lesser(a: int, b: int): int {
    if a <= b then a else b
  }

  /** The validated caps: no negative value, and an effective cap below both ceilings. */
  function CapsOf(raw: RawCaps): (c: Option<Caps>)
    ensures c.Some? ==> c.value.effective <= c.value.human && c.value.effective <= c.value.profile
  {
    var maxCost := OrElse(raw.maxCost, 0);
    var human, profile := OrElse(raw.human, maxCost), OrElse(raw.profile, maxCost);
    var effective := OrElse(raw.effective, Lesser(human, profile));
    var input, output, calls := OrElse(raw.inputTokens, 0), OrElse(raw.outputTokens, 0), OrElse(raw.providerCalls, 1);
    if maxCost < 0 || human < 0 || profile < 0 || effective < 0 || input < 0 || output < 0 || calls < 0 then None
    else if effective > human || effective > profile then None
    else Some(Caps(human, profile, effective, input, output, calls))
  }

  datatype Preview = Preview(id: string, preparation: Id, chain: Chain, caps: Caps, sealed: Sealed,
                             previewExpires: int, approvalExpires: int)

  datatype Approval = Approval(preview: string, hash: string, chain: Chain, effectiveCap: nat, providerCalls: nat,
                               created: int, expires: int)

  datatype Outcome<T> = Refused | Existing(value: T) | Created(value: T)

  /** Expiries keep four digits of the fraction of a second; `now` is in microseconds. */
  function Expiry(now: int, ttlSeconds: int): int {
    (now + ttlSeconds * 1_000_000) / 100 * 100
  }

  const SHORTEST_TTL := 300
  const LONGEST_PREVIEW := 604_800
  const LONGEST_APPROVAL := 86_400

  predicate TtlsOk(previewTtl: int, approvalTtl: int) {
    SHORTEST_TTL <= previewTtl <= LONGEST_PREVIEW && SHORTEST_TTL <= approvalTtl <= LONGEST_APPROVAL
    && approvalTtl <= previewTtl
  }

  /** The fields that a preview adds to those of its chain. */
  function Binding(chain: Chain, caps: Caps, approvalExpires: int, previewExpires: int): seq<Field> {
    chain.fields
    + [Field("human_cost_ceiling", Number(caps.human)), Field("profile_cost_ceiling", Number(caps.profile)),
       Field("effective_cost_cap", Number(caps.effective)), Field("max_input_tokens", Number(caps.inputTokens)),
       Field("max_output_tokens", Number(caps.outputTokens)), Field("max_provider_calls", Number(caps.providerCalls)),
       Field("approval_expires_at", Number(approvalExpires)), Field("preview_expires_at", Number(previewExpires)),
       Field("state", Text("AWAITING_HUMAN_APPROVAL"))]
  }

  /** The chain's own fields never clash with the ones a preview adds. */
  ghost predicate HasSchema(chain: Chain) {
    forall caps, approvalExpires, previewExpires :: IsBinding(Binding(chain, caps, approvalExpires, previewExpires))
  }

  function FindByReceipt(previews: seq<Preview>, receipt: Id, release: string): (p: Option<Preview>)
    ensures p.Some? ==> p.value in previews && p.value.chain.receipt == receipt && p.value.chain.release == release
    ensures p.None? ==> forall q :: q in previews ==> !(q.chain.receipt == receipt && q.chain.release == release)
  {
    if previews == [] then None
    else if previews[0].chain.receipt == receipt && previews[0].chain.release == release then Some(previews[0])
    else FindByReceipt(previews[1..], receipt, release)
  }

  function FindPreview(previews: seq<Preview>, id: string): (p: Option<Preview>)
    ensures p.Some? ==> p.value in previews && p.value.id == id
    ensures p.None? ==> forall q :: q in previews ==> q.id != id
  {
    if previews == [] then None
    else if previews[0].id == id then Some(previews[0])
    else FindPreview(previews[1..], id)
  }

  function FindApproval(approvals: seq<Approval>, preview: string): (a: Option<Approval>)
    ensures a.Some? ==> a.value in approvals && a.value.preview == preview
    ensures a.None? ==> forall b :: b in approvals ==> b.preview != preview
  {
    if approvals == [] then None
    else if approvals[0].preview == preview then Some(approvals[0])
    else FindApproval(approvals[1..], preview)
  }

  // ----- what every run keeps -----

  datatype State = State(previews: seq<Preview>, approvals: seq<Approval>)

  const EMPTY_STATE := State([], [])

  ghost predicate PreviewOk(digest: string -> string, p: Preview) {
    && PassesChecks(digest, p.sealed) && p.id == p.sealed.hash
    && p.approvalExpires <= p.previewExpires
    && p.caps.providerCalls == 1
    && p.caps.effective <= p.caps.human && p.caps.effective <= p.caps.profile
  }

  /** The approval copies a stored preview, its expiry included. */
  ghost predicate Copies(a: Approval, p: Preview) {
    && a.preview == p.id && a.hash == p.sealed.hash && a.chain == p.chain
    && a.effectiveCap == p.caps.effective && a.providerCalls == p.caps.providerCalls
    && a.expires == p.approvalExpires
  }

  ghost predicate HasSource(a: Approval, previews: seq<Preview>) {
    exists p :: p in previews && Copies(a, p)
  }

  ghost predicate Inv(digest: string -> string, s: State) {
    && (forall i :: 0 <= i < |s.previews| ==> PreviewOk(digest, s.previews[i]))
    && (forall i, j :: 0 <= i < j < |s.previews| ==>
          s.previews[i].chain.receipt != s.previews[j].chain.receipt && s.previews[i].id != s.previews[j].id)
    && (forall i :: 0 <= i < |s.approvals| ==> HasSource(s.approvals[i], s.previews))
    && (forall i, j :: 0 <= i < j < |s.approvals| ==> s.approvals[i].preview != s.approvals[j].preview)
  }

  /** At most one approval arises from a DNS receipt. */
  lemma OneApprovalPerReceipt(digest: string -> string, s: State, i: nat, j: nat)
    requires Inv(digest, s) && i < j < |s.approvals|
    ensures s.approvals[i].chain.receipt != s.approvals[j].chain.receipt
  {
    assert HasSource(s.approvals[i], s.previews) && HasSource(s.approvals[j], s.previews);
    var p :| p in s.previews && Copies(s.approvals[i], p);
    var q :| q in s.previews && Copies(s.approvals[j], q);
    assert p.id != q.id;
  }

  // ----- the two transactions -----

  // An authorization reads the clock twice: `checked` decides whether the preview
  // has expired, `stamped` becomes the creation time of the approval.

  datatype Step =
    | Create(preparation: Id, admin: bool, previewTtl: int, approvalTtl: int, now: int, loads: bool)
    | Authorize(preview: string, phrase: string, admin: bool, checked: int, stamped: int, loads: bool, legacyActivity: bool)

  /** The world of a run: the hash function, and the chain of each preparation. */
  datatype World = World(digest: string -> string, chainOf: Id -> Chain)

  function NewPreview(w: World, preparation: Id, caps: Caps, previewTtl: int, approvalTtl: int, now: int): Preview {
    var chain, approvalExpires, previewExpires := w.chainOf(preparation), Expiry(now, approvalTtl), Expiry(now, previewTtl);
    var sealed := Seal(w.digest, Binding(chain, caps, approvalExpires, previewExpires));
    Preview(sealed.hash, preparation, chain, caps, sealed, previewExpires, approvalExpires)
  }

  /** Unique keys and checks that the table enforces on insertion. */
  predicate Insertable(s: State, p: Preview) {
    p.caps.providerCalls == 1 && forall q :: q in s.previews ==> q.id != p.id && q.chain.receipt != p.chain.receipt
  }

  function CreatePreview(w: World, s: State, preparation: Id, admin: bool, previewTtl: int, approvalTtl: int, now: int,
                         loads: bool): (r: (State, Outcome<Preview>))
  {
    if !admin || !TtlsOk(previewTtl, approvalTtl) || !loads then (s, Refused) else
    var chain := w.chainOf(preparation);
    var caps := CapsOf(chain.caps);
    if caps.None? then (s, Refused) else
    var existing := FindByReceipt(s.previews, chain.receipt, chain.release);
    if existing.Some? then (s, Existing(existing.value)) else
    var p := NewPreview(w, preparation, caps.value, previewTtl, approvalTtl, now);
    if Insertable(s, p) then (s.(previews := s.previews + [p]), Created(p)) else (s, Refused)
  }

  /** A creation time keeps three digits of the fraction of a second. */
  function Milliseconds(now: int): int {
    now / 1000 * 1000
  }

  /** The approval that a preview turns into. */
  function NewApproval(p: Preview, stamped: int): Approval {
    Approval(p.id, p.sealed.hash, p.chain, p.caps.effective, p.caps.providerCalls, Milliseconds(stamped), p.approvalExpires)
  }

  function AuthorizePreview(w: World, s: State, preview: string, phrase: string, admin: bool, checked: int, stamped: int,
                            loads: bool, legacyActivity: bool): (r: (State, Outcome<Approval>))
  {
    if !admin then (s, Refused) else
    var found := FindPreview(s.previews, preview);
    if found.None? || !PassesChecks(w.digest, found.value.sealed) then (s, Refused) else
    var p := found.value;
    if phrase != PHRASE_PREFIX + p.sealed.hash || w.digest(Quoted(phrase)) != p.sealed.phraseHash then (s, Refused)
    else if p.previewExpires <= checked || p.approvalExpires <= checked || !loads then (s, Refused) else
    var chain := w.chainOf(p.preparation);
    if chain.snapshotHash != p.chain.snapshotHash || chain.receiptHash != p.chain.receiptHash
       || chain.handoffHash != p.chain.handoffHash then (s, Refused) else
    var existing := FindApproval(s.approvals, preview);
    if existing.Some? then (s, Existing(existing.value))
    else if legacyActivity then (s, Refused)
    else (s.(approvals := s.approvals + [NewApproval(p, stamped)]), Created(NewApproval(p, stamped)))
  }

  function Apply(w: World, s: State, step: Step): State {
    match step
    case Create(preparation, admin, previewTtl, approvalTtl, now, loads) =>
      CreatePreview(w, s, preparation, admin, previewTtl, approvalTtl, now, loads).0
    case Authorize(preview, phrase, admin, checked, stamped, loads, legacyActivity) =>
      AuthorizePreview(w, s, preview, phrase, admin, checked, stamped, loads, legacyActivity).0
  }

  function Run(w: World, s: State, steps: seq<Step>): State
    decreases |steps|
  {
    if steps == [] then s else
    Run(w, Apply(w, s, steps[0]), steps[1..])
  }

  ghost predicate HasSchemas(w: World) {
    forall id :: HasSchema(w.chainOf(id))
  }

  lemma NewPreviewIsOk(w: World, preparation: Id, caps: Caps, previewTtl: int, approvalTtl: int, now: int)
    requires HasSchemas(w) && TtlsOk(previewTtl, approvalTtl) && caps.providerCalls == 1
    requires caps.effective <= caps.human && caps.effective <= caps.profile
    ensures PreviewOk(w.digest, NewPreview(w, preparation, caps, previewTtl, approvalTtl, now))
  {
    var chain := w.chainOf(preparation);
    assert HasSchema(chain);
    SealPasses(w.digest, Binding(chain, caps, Expiry(now, approvalTtl), Expiry(now, previewTtl)));
  }

  lemma PreviewAdded(digest: string -> string, s: State, p: Preview)
    requires Inv(digest, s) && PreviewOk(digest, p) && Insertable(s, p)
    ensures Inv(digest, s.(previews := s.previews + [p]))
  {
    var t := s.(previews := s.previews + [p]);
    forall i | 0 <= i < |t.approvals| ensures HasSource(t.approvals[i], t.previews) {
      assert HasSource(s.approvals[i], s.previews);
      var q :| q in s.previews && Copies(s.approvals[i], q);
      assert q in t.previews;
    }
  }

  lemma ApprovalAdded(digest: string -> string, s: State, a: Approval, p: Preview)
    requires Inv(digest, s) && p in s.previews && Copies(a, p) && forall b :: b in s.approvals ==> b.preview != a.preview
    ensures Inv(digest, s.(approvals := s.approvals + [a]))
  {
    assert HasSource(a, s.previews);
  }

  lemma CreateKeepsInv(w: World, s: State, step: Step)
    requires HasSchemas(w) && Inv(w.digest, s) && step.Create?
    ensures Inv(w.digest, Apply(w, s, step)) && Apply(w, s, step).approvals == s.approvals
    ensures s.previews <= Apply(w, s, step).previews
  {
    var t := Apply(w, s, step);
    if t != s {
      var caps := CapsOf(w.chainOf(step.preparation).caps).value;
      NewPreviewIsOk(w, step.preparation, caps, step.previewTtl, step.approvalTtl, step.now);
      var p := NewPreview(w, step.preparation, caps, step.previewTtl, step.approvalTtl, step.now);
      PreviewAdded(w.digest, s, p);
    }
  }

  /** An authorization that changes anything adds the approval of an unexpired preview. */
  lemma AuthorizeAdds(w: World, s: State, step: Step, p: Preview)
    requires step.Authorize? && Apply(w, s, step) != s && FindPreview(s.previews, step.preview) == Some(p)
    ensures Apply(w, s, step) == s.(approvals := s.approvals + [NewApproval(p, step.stamped)])
    ensures step.checked < p.approvalExpires && step.checked < p.previewExpires
  {
  }

  lemma AuthorizeKeepsInv(w: World, s: State, step: Step)
    requires Inv(w.digest, s) && step.Authorize?
    ensures Inv(w.digest, Apply(w, s, step)) && Apply(w, s, step).previews == s.previews
    ensures s.approvals <= Apply(w, s, step).approvals
  {
    var t := Apply(w, s, step);
    if t != s {
      var p := FindPreview(s.previews, step.preview).value;
      ApprovalAdded(w.digest, s, NewApproval(p, step.stamped), p);
    }
  }

  lemma {:induction false} RunKeepsInv(w: World, s: State, steps: seq<Step>)
    requires HasSchemas(w) && Inv(w.digest, s)
    ensures Inv(w.digest, Run(w, s, steps))
    decreases |steps|
  {
    if steps != [] {
      if steps[0].Create? {
        CreateKeepsInv(w, s, steps[0]);
      } else {
        AuthorizeKeepsInv(w, s, steps[0]);
      }
      RunKeepsInv(w, Apply(w, s, steps[0]), steps[1..]);
    }
  }

  // ----- the two readings of the clock -----

  /** This step turned this preview into this approval. */
  ghost predicate IssuedBy(a: Approval, p: Preview, step: Step) {
    && step.Authorize? && step.preview == p.id && Copies(a, p)
    && step.checked < p.approvalExpires && step.checked < p.previewExpires
    && a.created == Milliseconds(step.stamped)
  }

  ghost predicate HasIssue(a: Approval, previews: seq<Preview>, steps: seq<Step>) {
    exists p, step :: p in previews && step in steps && IssuedBy(a, p, step)
  }

  lemma AuthorizeIssues(w: World, s: State, step: Step, a: Approval)
    requires Inv(w.digest, s) && step.Authorize? && a in Apply(w, s, step).approvals && a !in s.approvals
    ensures FindPreview(s.previews, step.preview).Some?
    ensures IssuedBy(a, FindPreview(s.previews, step.preview).value, step)
  {
    var p := FindPreview(s.previews, step.preview).value;
    assert Apply(w, s, step).approvals == s.approvals + [NewApproval(p, step.stamped)];
  }

  lemma {:induction false} RunKeepsPreviews(w: World, s: State, steps: seq<Step>)
    requires HasSchemas(w) && Inv(w.digest, s)
    ensures s.previews <= Run(w, s, steps).previews
    decreases |steps|
  {
    if steps != [] {
      if steps[0].Create? {
        CreateKeepsInv(w, s, steps[0]);
      } else {
        AuthorizeKeepsInv(w, s, steps[0]);
      }
      RunKeepsPreviews(w, Apply(w, s, steps[0]), steps[1..]);
    }
  }

  /** Each approval of a run was checked before both expiries of its preview, and carries the later reading. */
  lemma {:induction false} ApprovalsAreIssued(w: World, s: State, steps: seq<Step>, a: Approval)
    requires HasSchemas(w) && Inv(w.digest, s) && a in Run(w, s, steps).approvals && a !in s.approvals
    ensures HasIssue(a, Run(w, s, steps).previews, steps)
    decreases |steps|
  {
    var step, t := steps[0], Apply(w, s, steps[0]);
    if step.Create? {
      CreateKeepsInv(w, s, step);
    } else {
      AuthorizeKeepsInv(w, s, step);
    }
    if a in t.approvals {
      RunKeepsPreviews(w, t, steps[1..]);
      AuthorizeIssues(w, s, step, a);
      var p := FindPreview(s.previews, step.preview).value;
      assert p in Run(w, s, steps).previews && step in steps && IssuedBy(a, p, step);
    } else {
      ApprovalsAreIssued(w, t, steps[1..], a);
      var p, later :| p in Run(w, s, steps).previews && later in steps[1..] && IssuedBy(a, p, later);
      assert later in steps;
    }
  }

  /** The creation time is before the expiry iff the clock, when read again, had not passed the end of its millisecond. */
  lemma CreatedBeforeExpiryIff(a: Approval, p: Preview, step: Step)
    requires IssuedBy(a, p, step)
    ensures a.created < a.expires <==> step.stamped < (a.expires + 999) / 1000 * 1000
  {
    var whole, part := a.expires / 1000, a.expires % 1000;
    assert a.expires == whole * 1000 + part;
    assert step.stamped == step.stamped / 1000 * 1000 + step.stamped % 1000;
    assert (a.expires + 999) / 1000 == if part == 0 then whole else whole + 1;
  }

  /** What a call needs to create the first preview of a preparation. */
  predicate Creates(w: World, preparation: Id, caps: Caps, previewTtl: int, approvalTtl: int) {
    CapsOf(w.chainOf(preparation).caps) == Some(caps) && caps.providerCalls == 1 && TtlsOk(previewTtl, approvalTtl)
  }

  lemma FirstPreview(w: World, preparation: Id, caps: Caps, previewTtl: int, approvalTtl: int, now: int)
    requires Creates(w, preparation, caps, previewTtl, approvalTtl)
    ensures CreatePreview(w, EMPTY_STATE, preparation, true, previewTtl, approvalTtl, now, true).0
            == State([NewPreview(w, preparation, caps, previewTtl, approvalTtl, now)], [])
  {
  }

  lemma FirstApproval(w: World, p: Preview, phrase: string, checked: int, stamped: int)
    requires PassesChecks(w.digest, p.sealed) && p.id == p.sealed.hash && phrase == PHRASE_PREFIX + p.id
    requires p.chain == w.chainOf(p.preparation) && checked < p.approvalExpires && checked < p.previewExpires
    ensures AuthorizePreview(w, State([p], []), p.id, phrase, true, checked, stamped, true, false).0
            == State([p], [NewApproval(p, stamped)])
  {
  }

  lemma RunOfTwo(w: World, s: State, first: Step, second: Step)
    ensures Run(w, s, [first, second]) == Apply(w, Apply(w, s, first), second)
  {
    assert [first, second][1..] == [second] && [second][1..] == [];
    assert Run(w, Apply(w, s, first), [second]) == Run(w, Apply(w, Apply(w, s, first), second), []);
  }

  /** A preview is created, and authorized with its phrase in the last microsecond before it expires. */
  function LateSteps(p: Preview, previewTtl: int, approvalTtl: int, now: int, stamped: int): seq<Step> {
    [Create(p.preparation, true, previewTtl, approvalTtl, now, true),
     Authorize(p.id, PHRASE_PREFIX + p.id, true, p.approvalExpires - 1, stamped, true, false)]
  }

  /**
   For every preparation that gets a preview at all, the clock may pass the expiry
   between the two readings: the approval is then dated at its expiry or later.
   */
  lemma LateStamp(w: World, preparation: Id, caps: Caps, previewTtl: int, approvalTtl: int, now: int, stamped: int)
    requires HasSchemas(w) && Creates(w, preparation, caps, previewTtl, approvalTtl)
    requires stamped >= (Expiry(now, approvalTtl) + 999) / 1000 * 1000
    ensures var p := NewPreview(w, preparation, caps, previewTtl, approvalTtl, now);
            var end := Run(w, EMPTY_STATE, LateSteps(p, previewTtl, approvalTtl, now, stamped));
            && |end.approvals| == 1 && IssuedBy(end.approvals[0], p, LateSteps(p, previewTtl, approvalTtl, now, stamped)[1])
            && end.approvals[0].created >= end.approvals[0].expires
  {
    var p := NewPreview(w, preparation, caps, previewTtl, approvalTtl, now);
    var steps := LateSteps(p, previewTtl, approvalTtl, now, stamped);
    NewPreviewIsOk(w, preparation, caps, previewTtl, approvalTtl, now);
    FirstPreview(w, preparation, caps, previewTtl, approvalTtl, now);
    FirstApproval(w, p, PHRASE_PREFIX + p.id, p.approvalExpires - 1, stamped);
    RunOfTwo(w, EMPTY_STATE, steps[0], steps[1]);
    CreatedBeforeExpiryIff(NewApproval(p, stamped), p, steps[1]);
  }

  // ----- expiry is final -----

  predicate HasApprovalFrom(s: State, receipt: Id) {
    exists a :: a in s.approvals && a.chain.receipt == receipt
  }

  /** Once a receipt's preview has expired without an approval, the receipt never gets one. */
  lemma {:induction false} ExpiredReceiptStaysUnapproved(w: World, s: State, steps: seq<Step>, p: Preview)
    requires HasSchemas(w) && Inv(w.digest, s) && p in s.previews && !HasApprovalFrom(s, p.chain.receipt)
    requires forall step :: step in steps && step.Authorize? ==> p.approvalExpires <= step.checked
    ensures !HasApprovalFrom(Run(w, s, steps), p.chain.receipt)
    decreases |steps|
  {
    if steps != [] {
      var t := Apply(w, s, steps[0]);
      assert steps[0] in steps;
      if steps[0].Create? {
        CreateKeepsInv(w, s, steps[0]);
      } else {
        AuthorizeKeepsInv(w, s, steps[0]);
        LateAuthorizeSpares(w, s, steps[0], p);
      }
      ExpiredReceiptStaysUnapproved(w, t, steps[1..], p);
    }
  }

  lemma OtherReceipt(digest: string -> string, s: State, p: Preview, q: Preview)
    requires Inv(digest, s) && p in s.previews && q in s.previews && p != q
    ensures p.chain.receipt != q.chain.receipt
  {
    var i :| 0 <= i < |s.previews| && s.previews[i] == p;
    var j :| 0 <= j < |s.previews| && s.previews[j] == q;
    assert i != j;
  }

  lemma LateAuthorizeSpares(w: World, s: State, step: Step, p: Preview)
    requires Inv(w.digest, s) && p in s.previews && step.Authorize? && p.approvalExpires <= step.checked
    requires !HasApprovalFrom(s, p.chain.receipt)
    ensures !HasApprovalFrom(Apply(w, s, step), p.chain.receipt)
  {
    if Apply(w, s, step) != s {
      var q := FindPreview(s.previews, step.preview).value;
      AuthorizeAdds(w, s, step, q);
      OtherReceipt(w.digest, s, p, q);
    }
  }

  // ----- the store -----

  class ApprovalStore {
    const world: World
    var previews: seq<Preview>
    var approvals: seq<Approval>

    ghost function View(): State
      reads this
    {
      State(previews, approvals)
    }

    ghost predicate Valid()
      reads this
    {
      HasSchemas(world) && Inv(world.digest, View())
    }

    constructor (world: World)
      requires HasSchemas(world)
      ensures Valid() && this.world == world && View() == EMPTY_STATE
    {
      this.world, previews, approvals := world, [], [];
    }

    /** Creates the preview of a preparation, or returns the one its DNS receipt already has. */
    method CreateApprovalPreview(preparation: Id, admin: bool, previewTtl: int, approvalTtl: int, now: int, loads: bool)
      returns (outcome: Outcome<Preview>)
      requires Valid()
      modifies this
      ensures Valid()
      ensures (View(), outcome)
              == CreatePreview(world, old(View()), preparation, admin, previewTtl, approvalTtl, now, loads)
    {
      CreateKeepsInv(world, View(), Create(preparation, admin, previewTtl, approvalTtl, now, loads));
      if !admin || !TtlsOk(previewTtl, approvalTtl) || !loads {
        return Refused;
      }
      var chain := world.chainOf(preparation);
      var caps := CapsOf(chain.caps);
      if caps.None? {
        return Refused;
      }
      var existing := FindByReceipt(previews, chain.receipt, chain.release);
      if existing.Some? {
        return Existing(existing.value);
      }
      var p := NewPreview(world, preparation, caps.value, previewTtl, approvalTtl, now);
      if !Insertable(State(previews, approvals), p) {
        return Refused;
      }
      previews := previews + [p];
      return Created(p);
    }

    /** Reads a stored preview; its checks never fail. */
    method PreviewRow(id: string) returns (row: Option<Preview>, intact: bool)
      requires Valid()
      ensures row == FindPreview(previews, id) && intact
    {
      row := FindPreview(previews, id);
      intact := row.None? || PassesChecks(world.digest, row.value.sealed);
    }

    /** Turns the exact phrase of an unexpired preview into its approval. */
    method AuthorizeApproval(preview: string, phrase: string, admin: bool, checked: int, stamped: int, loads: bool,
                             legacyActivity: bool)
      returns (outcome: Outcome<Approval>)
      requires Valid()
      modifies this
      ensures Valid()
      ensures (View(), outcome)
              == AuthorizePreview(world, old(View()), preview, phrase, admin, checked, stamped, loads, legacyActivity)
    {
      AuthorizeKeepsInv(world, View(), Authorize(preview, phrase, admin, checked, stamped, loads, legacyActivity));
      if !admin {
        return Refused;
      }
      var row, intact := PreviewRow(preview);
      if row.None? || !intact {
        return Refused;
      }
      var p := row.value;
      if phrase != PHRASE_PREFIX + p.sealed.hash || world.digest(Quoted(phrase)) != p.sealed.phraseHash {
        return Refused;
      }
      if p.previewExpires <= checked || p.approvalExpires <= checked || !loads {
        return Refused;
      }
      var chain := world.chainOf(p.preparation);
      if chain.snapshotHash != p.chain.snapshotHash || chain.receiptHash != p.chain.receiptHash
         || chain.handoffHash != p.chain.handoffHash {
        return Refused;
      }
      var existing := FindApproval(approvals, preview);
      if existing.Some? {
        return Existing(existing.value);
      }
      if legacyActivity {
        return Refused;
      }
      approvals := approvals + [NewApproval(p, stamped)];
      return Created(NewApproval(p, stamped));
    }
  }
}
