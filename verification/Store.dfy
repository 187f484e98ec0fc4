/**
 The governance tables and every transaction over them.

 A transaction is one atomic step: it either completes (`Done`) or is refused
 and rolled back (`Refused`).  Guards come from the Python code and from the
 triggers of the schema migrations.
 */
module Store {
  import opened Wrappers
  import opened Text
  import opened Corpus

  // ----- rows -----

  datatype Kind = Note | Hypothesis | Objection | Report

  datatype ItemStatus = Draft | Candidate | UnderReview | Accepted | Rejected | Archived

  /** The payload fields the rules look at, and the remaining content. */
  datatype Payload = Payload(schema: Option<string>, checkpointVersion: Option<int>, content: string)

  const CHECKPOINT_SCHEMA := "research-checkpoint/v1"
  const CHECKPOINT_VERSION := 1

  predicate IsStandardCheckpoint(p: Payload) {
    p.schema == Some(CHECKPOINT_SCHEMA)
  }

  datatype Item = Item(project: Id, kind: Kind, status: ItemStatus, createdBy: string,
                       supersedes: Option<Id>, payload: Payload)

  /** A verification token; `expires` is in whole seconds. */
  datatype Token = Token(secret: string, passage: Id, documentHash: nat, quote: string,
                         issuedTo: string, issuedSession: string, expires: int,
                         consumedAt: Option<int>, project: Id, sourceVersion: string)

  datatype Evidence = Evidence(passage: Id, document: Id, documentHash: nat, quote: string,
                               verifiedBy: string, sourceVersion: string)

  datatype EvidenceStatus = EvidenceCandidate | EvidenceAccepted | EvidenceRejected

  /** One row of evidence_status_history. */
  datatype StatusEvent = StatusEvent(evidence: Id, status: EvidenceStatus)

  datatype Target = ItemTarget(item: Id) | EvidenceTarget(evidence: Id)

  datatype RequestStatus = Pending | Approved | Declined

  datatype Request = Request(id: Id, project: Id, target: Target, requestedBy: string,
                             status: RequestStatus)

  datatype Session = Session(actorId: string, project: Option<Id>)

  datatype ActorKind = Agent | User

  datatype Actor = Actor(actorId: string, sessionId: string, kind: ActorKind, adminRole: bool) {
    predicate IsAdmin() { kind == User && adminRole }
  }

  datatype Event =
    | ProjectCreated
    | ProjectArchived
    | FileIngested(document: Id)
    | MetadataUpdated(document: Id)
    | ItemSubmitted(kind: Kind, item: Id)
    | QuoteVerified(passage: Id)
    | EvidenceSubmitted(token: Id, evidence: Id)
    | ApprovalRequested(target: Target)
    | ApprovalDecided(request: Id, target: Target, approved: bool)
    | TokensCleaned
  {
    /** operation LIKE 'submit_%' */
    predicate IsSubmit() { ItemSubmitted? || EvidenceSubmitted? }
  }

  datatype AuditRow = AuditRow(actorId: string, kind: ActorKind, session: string,
                               project: Option<Id>, event: Event, success: bool)

  datatype ProjectStatus = Active | ProjectArchivedStatus

  /** All tables.  `order` lists the item keys in insertion order. */
  datatype Store = Store(
    projects: map<Id, ProjectStatus>,
    corpus: Corpus,
    items: map<Id, Item>,
    order: seq<Id>,
    tokens: map<Id, Token>,
    evidence: map<Id, Evidence>,
    history: seq<StatusEvent>,
    requests: seq<Request>,
    sessions: map<string, Session>,
    audit: seq<AuditRow>)

  const EMPTY_STORE := Store(map[], EMPTY_CORPUS, map[], [], map[], map[], [], [], map[], [])

  datatype Limits = Limits(maxWrites: nat, tokenTtlSeconds: nat)

  datatype Refusal =
    | AdminOnly
    | AgentStatus
    | QuotaExceeded
    | ProjectNotActive
    | OutOfScope
    | NotFound
    | InvalidCheckpoint
    | CheckpointConflict
    | InvalidSuccessor
    | SessionConflict
    | InvalidToken
    | ForeignToken
    | TokenConsumed
    | TokenExpired
    | SourceChanged
    | NotCandidate
    | NotPending
    | HasSuccessor
    | InvalidArgument
    | IntegrityError

  datatype Outcome<+T> = Done(store: Store, reply: T) | Refused(reason: Refusal)

  /** What the database holds after a transaction: its result, or the state before it. */
  function Commit<T>(s: Store, o: Outcome<T>): Store {
    if o.Done? then o.store else s
  }

  // ----- queries shared by several transactions -----

  function Row(a: Actor, project: Option<Id>, e: Event, success: bool): AuditRow {
    AuditRow(a.actorId, a.kind, a.sessionId, project, e, success)
  }

  predicate IsActive(s: Store, project: Id) {
    project in s.projects && s.projects[project] == Active
  }

  /** Successful submissions the session has made: what the write quota counts. */
  function Submits(audit: seq<AuditRow>, session: string): (n: nat)
    ensures n <= |audit|
  {
    if audit == [] then 0 else
    var last := audit[|audit| - 1];
    Submits(audit[..|audit| - 1], session)
    + (if last.session == session && last.event.IsSubmit() && last.success then 1 else 0)
  }

  predicate OverQuota(s: Store, lim: Limits, a: Actor) {
    !a.IsAdmin() && Submits(s.audit, a.sessionId) >= lim.maxWrites
  }

  predicate Supersedes(s: Store, successor: Id, target: Id) {
    successor in s.items && s.items[successor].supersedes == Some(target)
  }

  predicate HasAnySuccessor(s: Store, target: Id) {
    exists i :: i in s.items && Supersedes(s, i, target)
  }

  predicate IsCheckpoint(s: Store, i: Id) {
    i in s.items && s.items[i].kind == Note && IsStandardCheckpoint(s.items[i].payload)
  }

  predicate IsCheckpointOf(s: Store, project: Id, i: Id) {
    IsCheckpoint(s, i) && s.items[i].project == project
  }

  /** The service's query for a current checkpoint. */
  predicate IsCurrentCheckpoint(s: Store, project: Id, i: Id) {
    && IsCheckpointOf(s, project, i)
    && s.items[i].status != ItemStatus.Archived && s.items[i].status != Rejected
    && !HasAnySuccessor(s, i)
  }

  /** The current checkpoints among some rows. */
  function CurrentAmong(s: Store, project: Id, rows: seq<Id>): seq<Id> {
    Filter(i => IsCurrentCheckpoint(s, project, i), rows)
  }

  function CurrentCheckpoints(s: Store, project: Id): seq<Id> {
    CurrentAmong(s, project, s.order)
  }

  /** A successor of a standard checkpoint that is not one itself. */
  predicate IsCrossKindSuccessor(s: Store, project: Id, i: Id) {
    && i in s.items && s.items[i].supersedes.Some?
    && IsCheckpointOf(s, project, s.items[i].supersedes.value)
    && !IsCheckpoint(s, i)
  }

  function CrossKindAmong(s: Store, project: Id, rows: seq<Id>): seq<Id> {
    Filter(i => IsCrossKindSuccessor(s, project, i), rows)
  }

  function CrossKindSuccessors(s: Store, project: Id): seq<Id> {
    CrossKindAmong(s, project, s.order)
  }

  /** The row-by-row form of the two queries. */
  lemma QueriesByRow(s: Store, project: Id, rows: seq<Id>, i: Id)
    ensures CurrentAmong(s, project, rows + [i])
            == CurrentAmong(s, project, rows) + if IsCurrentCheckpoint(s, project, i) then [i] else []
    ensures CrossKindAmong(s, project, rows + [i])
            == CrossKindAmong(s, project, rows) + if IsCrossKindSuccessor(s, project, i) then [i] else []
  {
    FilterAppend(j => IsCurrentCheckpoint(s, project, j), rows, i);
    FilterAppend(j => IsCrossKindSuccessor(s, project, j), rows, i);
  }

  // ----- item creation -----

  datatype NewItem = NewItem(id: Id, project: Id, kind: Kind, status: ItemStatus, payload: Payload,
                             passages: seq<Id>, evidence: seq<Id>,
                             supersedes: Option<Id>, standardCheckpoint: bool)

  /** Why a checkpoint may not be inserted now, in the source's order of checks. */
  function CheckpointProblem(s: Store, project: Id, supersedes: Option<Id>): Option<Refusal> {
    var current := CurrentCheckpoints(s, project);
    if CrossKindSuccessors(s, project) != [] then Some(CheckpointConflict)
    else if |current| > 1 then Some(CheckpointConflict)
    else if |current| == 0 then (if supersedes.Some? then Some(CheckpointConflict) else None)
    else if supersedes != Some(current[0]) then Some(CheckpointConflict)
    else
      var target := current[0];
      if target !in s.items || s.items[target].project != project then Some(CheckpointConflict)
      else if s.items[target].kind != Note then Some(CheckpointConflict)
      else if s.items[target].status in {ItemStatus.Archived, Rejected} then Some(CheckpointConflict)
      else if !IsStandardCheckpoint(s.items[target].payload) then Some(CheckpointConflict)
      else if HasAnySuccessor(s, target) then Some(CheckpointConflict)
      else None
  }

  function SuccessorProblem(s: Store, n: NewItem): Option<Refusal> {
    if n.standardCheckpoint then
      if n.kind != Note || !IsStandardCheckpoint(n.payload)
         || n.payload.checkpointVersion != Some(CHECKPOINT_VERSION)
      then Some(InvalidCheckpoint)
      else CheckpointProblem(s, n.project, n.supersedes)
    else if n.kind == Note && n.supersedes.Some? then Some(InvalidSuccessor)
    else if IsStandardCheckpoint(n.payload) then Some(InvalidCheckpoint)
    else if n.supersedes.Some? then
      var t := n.supersedes.value;
      if t !in s.items || s.items[t].project != n.project then Some(InvalidSuccessor)
      else if IsCheckpoint(s, t) then Some(CheckpointConflict)
      else None
    else None
  }

  /** The session row after a touch, or nothing when it is bound elsewhere. */
  function Touched(s: Store, a: Actor, project: Id): Option<Session> {
    if a.sessionId !in s.sessions then Some(Session(a.actorId, Some(project)))
    else
      var was := s.sessions[a.sessionId];
      if was.actorId != a.actorId then None
      else if was.project.Some? && was.project.value != project then None
      else Some(Session(was.actorId, Some(project)))
  }

  predicate EvidenceInProject(s: Store, project: Id, e: Id) {
    e in s.evidence && LinkedTo(s.corpus, project, s.evidence[e].document)
  }

  predicate LinksInScope(s: Store, n: NewItem) {
    && (forall p :: p in n.passages ==> PassageInProject(s.corpus, n.project, p).Some?)
    && (forall e :: e in n.evidence ==> EvidenceInProject(s, n.project, e))
  }

  function Inserted(s: Store, a: Actor, n: NewItem, session: Session): Store {
    s.(sessions := s.sessions[a.sessionId := session],
       items := s.items[n.id := Item(n.project, n.kind, n.status, a.actorId, n.supersedes, n.payload)],
       order := s.order + [n.id],
       audit := s.audit + [Row(a, Some(n.project), ItemSubmitted(n.kind, n.id), true)])
  }

  function CreateItem(s: Store, lim: Limits, a: Actor, n: NewItem): Outcome<Id> {
    if !a.IsAdmin() && n.status !in {Draft, ItemStatus.Candidate} then Refused(AgentStatus)
    else if OverQuota(s, lim, a) then Refused(QuotaExceeded)
    else if !IsActive(s, n.project) then Refused(ProjectNotActive)
    else match SuccessorProblem(s, n)
      case Some(problem) => Refused(problem)
      case None =>
        match Touched(s, a, n.project)
        case None => Refused(SessionConflict)
        case Some(session) =>
          if n.supersedes == Some(n.id) then Refused(InvalidSuccessor)
          else if n.id in s.items then Refused(IntegrityError)
          else if !LinksInScope(s, n) then Refused(OutOfScope)
          else Done(Inserted(s, a, n, session), n.id)
  }

  /** The item save_research_note asks for. */
  function NoteItem(id: Id, project: Id, content: string, checkpoint: bool, supersedes: Option<Id>): NewItem {
    NewItem(id, project, Note, Draft,
            if checkpoint then Payload(Some(CHECKPOINT_SCHEMA), Some(CHECKPOINT_VERSION), content)
            else Payload(None, None, content),
            [], [], supersedes, checkpoint)
  }

  function SaveNote(s: Store, lim: Limits, a: Actor, id: Id, project: Id, content: string,
                    checkpoint: bool, supersedes: Option<Id>): Outcome<Id>
  {
    if !checkpoint && supersedes.Some? then Refused(InvalidArgument)
    else CreateItem(s, lim, a, NoteItem(id, project, content, checkpoint, supersedes))
  }

  function SubmitHypothesis(s: Store, lim: Limits, a: Actor, id: Id, project: Id, status: ItemStatus,
                            content: string, passages: seq<Id>, supersedes: Option<Id>): Outcome<Id>
  {
    CreateItem(s, lim, a, NewItem(id, project, Hypothesis, status, Payload(None, None, content),
                                  passages, [], supersedes, false))
  }

  function SubmitObjection(s: Store, lim: Limits, a: Actor, id: Id, project: Id, status: ItemStatus,
                           content: string, target: Id, passages: seq<Id>): Outcome<Id>
  {
    if target !in s.items || s.items[target].project != project then Refused(OutOfScope)
    else CreateItem(s, lim, a, NewItem(id, project, Objection, status, Payload(None, None, content),
                                       passages, [], None, false))
  }

  function SubmitReport(s: Store, lim: Limits, a: Actor, id: Id, project: Id, status: ItemStatus,
                        content: string, passages: seq<Id>, evidence: seq<Id>,
                        supersedes: Option<Id>): Outcome<Id>
  {
    CreateItem(s, lim, a, NewItem(id, project, Report, status, Payload(None, None, content),
                                  passages, evidence, supersedes, false))
  }

  // ----- quotation tokens and evidence -----

  const MICROS := 1_000_000
  const MIN_QUOTE := 8

  /** A clock reading in microseconds as the whole seconds that are stored. */
  function Seconds(micros: int): int {
    micros / MICROS
  }

  function Issued(s: Store, lim: Limits, a: Actor, project: Id, passage: Id, d: Document, quote: string,
                  token: Id, secret: string, now: int): Store
  {
    s.(tokens := s.tokens[token := Token(secret, passage, d.contentHash, quote, a.actorId, a.sessionId,
                                         Seconds(now + lim.tokenTtlSeconds * MICROS),
                                         None, project, VersionOf(d))],
       audit := s.audit + [Row(a, Some(project), QuoteVerified(passage), true)])
  }

  function Mismatch(s: Store, a: Actor, project: Id, passage: Id): Store {
    s.(audit := s.audit + [Row(a, Some(project), QuoteVerified(passage), false)])
  }

  /**
   `quote` is the caller's text with surrounding space stripped and `now` is in
   microseconds; the reply says whether the quote was verified.
   */
  function VerifyQuote(s: Store, lim: Limits, a: Actor, project: Id, passage: Id, quote: string,
                       token: Id, secret: string, now: int): Outcome<bool>
  {
    if |quote| < MIN_QUOTE then Refused(InvalidArgument)
    else if !IsActive(s, project) then Refused(ProjectNotActive)
    else match PassageInProject(s.corpus, project, passage)
      case None => Refused(NotFound)
      case Some((p, d)) =>
        if !ContainsQuote(quote, p.text) then Done(Mismatch(s, a, project, passage), false)
        else if token in s.tokens || SecretUsed(s, secret) then Refused(IntegrityError)
        else Done(Issued(s, lim, a, project, passage, d, quote, token, secret, now), true)
  }

  predicate ContainsQuote(quote: string, text: string) {
    exists at: nat | at <= |text| :: OccursAt(quote, text, at)
  }

  predicate SecretUsed(s: Store, secret: string) {
    exists t :: t in s.tokens && s.tokens[t].secret == secret
  }

  /** The token a submission presents, joined to its project. */
  ghost predicate Presents(s: Store, project: Id, secret: string, t: Id) {
    && t in s.tokens && s.tokens[t].secret == secret && s.tokens[t].project == project
    && PassageInProject(s.corpus, project, s.tokens[t].passage).Some?
  }

  predicate Expired(t: Token, now: int) {
    t.expires * MICROS < now
  }

  predicate SourceUnchanged(t: Token, p: Passage, d: Document) {
    d.contentHash == t.documentHash && VersionOf(d) == t.sourceVersion && ContainsQuote(t.quote, p.text)
  }

  /** The guards of a submission, in order, for the token it presents. */
  function TokenProblem(t: Token, p: Passage, d: Document, a: Actor, now: int): Option<Refusal> {
    if t.issuedTo != a.actorId then Some(ForeignToken)
    else if t.issuedSession != a.sessionId then Some(ForeignToken)
    else if t.consumedAt.Some? then Some(TokenConsumed)
    else if Expired(t, now) then Some(TokenExpired)
    else if !SourceUnchanged(t, p, d) then Some(SourceChanged)
    else None
  }

  /** Rows of evidence `e`; the strict trigger refuses a second candidate row. */
  predicate HasHistory(history: seq<StatusEvent>, e: Id) {
    exists k :: 0 <= k < |history| && history[k].evidence == e
  }

  ghost function SubmitEvidence(s: Store, a: Actor, project: Id, secret: string, evidence: Id, now: int): Outcome<Id>
  {
    if !IsActive(s, project) then Refused(ProjectNotActive)
    else if !exists t :: Presents(s, project, secret, t) then Refused(InvalidToken)
    else
      var t :| Presents(s, project, secret, t);
      var token := s.tokens[t];
      var (p, d) := PassageInProject(s.corpus, project, token.passage).value;
      match TokenProblem(token, p, d, a, now)
      case Some(problem) => Refused(problem)
      case None =>
        if evidence in s.evidence || HasHistory(s.history, evidence) then Refused(IntegrityError)
        else Done(Redeemed(s, a, project, t, p.document, evidence, now), evidence)
  }

  function Redeemed(s: Store, a: Actor, project: Id, t: Id, document: Id, evidence: Id, now: int): Store
    requires t in s.tokens
  {
    var token := s.tokens[t];
    s.(evidence := s.evidence[evidence := Evidence(token.passage, document, token.documentHash, token.quote,
                                                   a.actorId, token.sourceVersion)],
       history := s.history + [StatusEvent(evidence, EvidenceCandidate)],
       tokens := s.tokens[t := token.(consumedAt := Some(Seconds(now)))],
       audit := s.audit + [Row(a, Some(project), EvidenceSubmitted(t, evidence), true)])
  }

  /** Marks tokens whose expiry lies before the current second. */
  function CleanupTokens(s: Store, a: Actor, now: int): Outcome<nat> {
    if !a.IsAdmin() then Refused(AdminOnly)
    else
      var stale := set t | t in s.tokens && IsStale(s.tokens[t], now);
      Done(s.(tokens := map t | t in s.tokens :: Swept(s.tokens[t], now),
              audit := s.audit + [Row(a, None, TokensCleaned, true)]), |stale|)
  }

  predicate IsStale(t: Token, now: int) {
    t.consumedAt.None? && t.expires < Seconds(now)
  }

  function Swept(t: Token, now: int): Token {
    if IsStale(t, now) then t.(consumedAt := Some(Seconds(now))) else t
  }

  // ----- approvals -----

  /** The status of evidence: its last history row, or candidate. */
  function EvidenceStatusOf(history: seq<StatusEvent>, e: Id): EvidenceStatus {
    if history == [] then EvidenceCandidate
    else if history[|history| - 1].evidence == e then history[|history| - 1].status
    else EvidenceStatusOf(history[..|history| - 1], e)
  }

  predicate IsPendingFor(r: Request, project: Id, target: Target) {
    r.project == project && r.target == target && r.status == Pending
  }

  /** The oldest pending request for a target in a project. */
  function FirstPending(requests: seq<Request>, project: Id, target: Target): (r: Option<nat>)
    ensures r.Some? ==> r.value < |requests| && IsPendingFor(requests[r.value], project, target)
    ensures r.Some? ==> forall k :: 0 <= k < r.value ==> !IsPendingFor(requests[k], project, target)
    ensures r.None? ==> forall k :: 0 <= k < |requests| ==> !IsPendingFor(requests[k], project, target)
  {
    if requests == [] then None
    else if IsPendingFor(requests[0], project, target) then Some(0)
    else match FirstPending(requests[1..], project, target)
      case None => None
      case Some(k) => Some(k + 1)
  }

  predicate TargetInProject(s: Store, project: Id, target: Target) {
    match target
    case ItemTarget(i) => i in s.items && s.items[i].project == project
    case EvidenceTarget(e) => EvidenceInProject(s, project, e)
  }

  predicate TargetIsCandidate(s: Store, target: Target) {
    match target
    case ItemTarget(i) => i in s.items && s.items[i].status == ItemStatus.Candidate
    case EvidenceTarget(e) => EvidenceStatusOf(s.history, e) == EvidenceCandidate
  }

  predicate RequestIdUsed(s: Store, id: Id) {
    exists k :: 0 <= k < |s.requests| && s.requests[k].id == id
  }

  function WithStatus(s: Store, i: Id, status: ItemStatus): Store
    requires i in s.items
  {
    s.(items := s.items[i := s.items[i].(status := status)])
  }

  function Requested(s: Store, a: Actor, project: Id, target: Target, id: Id): Store
    requires target.ItemTarget? ==> target.item in s.items
  {
    var filed := s.(
      requests := s.requests + [Request(id, project, target, a.actorId, Pending)],
      audit := s.audit + [Row(a, Some(project), ApprovalRequested(target), true)]);
    if target.ItemTarget? then WithStatus(filed, target.item, UnderReview) else filed
  }

  /** The reply is the request's key; an open request for the target is returned again. */
  function RequestApproval(s: Store, lim: Limits, a: Actor, project: Id, target: Target, id: Id): Outcome<Id> {
    if !IsActive(s, project) then Refused(ProjectNotActive)
    else if OverQuota(s, lim, a) then Refused(QuotaExceeded)
    else if !TargetInProject(s, project, target) then Refused(OutOfScope)
    else match FirstPending(s.requests, project, target)
      case Some(k) => Done(s, s.requests[k].id)
      case None =>
        if !TargetIsCandidate(s, target) then Refused(NotCandidate)
        else if RequestIdUsed(s, id) then Refused(IntegrityError)
        else Done(Requested(s, a, project, target, id), id)
  }

  /** The pending request with this key. */
  function FindPending(requests: seq<Request>, id: Id): (r: Option<nat>)
    ensures r.Some? ==> r.value < |requests| && requests[r.value].id == id && requests[r.value].status == Pending
    ensures r.None? ==> forall k :: 0 <= k < |requests| ==> requests[k].id != id || requests[k].status != Pending
  {
    if requests == [] then None
    else if requests[0].id == id && requests[0].status == Pending then Some(0)
    else match FindPending(requests[1..], id)
      case None => None
      case Some(k) => Some(k + 1)
  }

  predicate HasProjectSuccessor(s: Store, project: Id, i: Id) {
    exists j :: j in s.items && Supersedes(s, j, i) && s.items[j].project == project
  }

  /**
   Why a decision on this request aborts: an approved item must not have been
   superseded, an item must still be under review, and the status of evidence
   that is already decided is immutable.
   */
  function DecisionProblem(s: Store, r: Request, approve: bool): Option<Refusal> {
    match r.target
    case ItemTarget(i) =>
      if approve && HasProjectSuccessor(s, r.project, i) then Some(HasSuccessor)
      else if i !in s.items || s.items[i].status != UnderReview then Some(IntegrityError)
      else None
    case EvidenceTarget(e) =>
      if EvidenceStatusOf(s.history, e) != EvidenceCandidate then Some(IntegrityError)
      else None
  }

  function Decided(s: Store, a: Actor, k: nat, approve: bool): Store
    requires k < |s.requests|
    requires DecisionProblem(s, s.requests[k], approve).None?
  {
    var r := s.requests[k];
    var closed := s.(
      requests := s.requests[k := r.(status := if approve then Approved else Declined)],
      audit := s.audit + [Row(a, Some(r.project), ApprovalDecided(r.id, r.target, approve), true)]);
    match r.target
    case ItemTarget(i) => WithStatus(closed, i, if approve then Accepted else Rejected)
    case EvidenceTarget(e) =>
      closed.(history := s.history + [StatusEvent(e, if approve then EvidenceAccepted else EvidenceRejected)])
  }

  function DecideApproval(s: Store, a: Actor, id: Id, approve: bool): Outcome<Target> {
    if !a.IsAdmin() then Refused(AdminOnly)
    else match FindPending(s.requests, id)
      case None => Refused(NotPending)
      case Some(k) =>
        match DecisionProblem(s, s.requests[k], approve)
        case Some(problem) => Refused(problem)
        case None => Done(Decided(s, a, k, approve), s.requests[k].target)
  }

  // ----- administration -----

  function CreateProject(s: Store, a: Actor, project: Id): Outcome<Id> {
    if !a.IsAdmin() then Refused(AdminOnly)
    else if project in s.projects then Refused(IntegrityError)
    else Done(s.(projects := s.projects[project := Active],
                 audit := s.audit + [Row(a, Some(project), ProjectCreated, true)]), project)
  }

  function ArchiveProject(s: Store, a: Actor, project: Id): Outcome<Id> {
    if !a.IsAdmin() then Refused(AdminOnly)
    else if project !in s.projects then Refused(NotFound)
    else if s.projects[project] != Active then Refused(InvalidArgument)
    else Done(s.(projects := s.projects[project := ProjectArchivedStatus],
                 audit := s.audit + [Row(a, Some(project), ProjectArchived, true)]), project)
  }

  ghost function IngestFile(s: Store, a: Actor, project: Id, u: Upload): Outcome<Id> {
    if !a.IsAdmin() then Refused(AdminOnly)
    else if u.chunks == [] then Refused(InvalidArgument)
    else if !IsActive(s, project) then Refused(ProjectNotActive)
    else if Stored(s.corpus, u.contentHash) || Insertable(s.corpus, u) then
      var document := if Stored(s.corpus, u.contentHash) then StoredAs(s.corpus, u.contentHash) else u.document;
      Done(s.(corpus := Ingest(s.corpus, project, u),
              audit := s.audit + [Row(a, Some(project), FileIngested(document), true)]), document)
    else Refused(IntegrityError)
  }

  function UpdateMetadata(s: Store, a: Actor, project: Id, document: Id, edit: Edit, reason: string): Outcome<bool> {
    if !a.IsAdmin() then Refused(AdminOnly)
    else if Blank(reason) then Refused(InvalidArgument)
    else if edit.title.None? && edit.sourceVersion.None? then Refused(InvalidArgument)
    else if !IsActive(s, project) then Refused(ProjectNotActive)
    else if document !in s.corpus.documents || !LinkedTo(s.corpus, project, document) then Refused(OutOfScope)
    else if Edited(s.corpus.documents[document], edit).title == "" then Refused(InvalidArgument)
    else if Edited(s.corpus.documents[document], edit) == s.corpus.documents[document] then Done(s, false)
    else Done(s.(corpus := Revise(s.corpus, document, edit),
                 audit := s.audit + [Row(a, Some(project), MetadataUpdated(document), true)]), true)
  }

  // ----- runs -----

  datatype Step =
    | DoCreateProject(actor: Actor, project: Id)
    | DoArchiveProject(actor: Actor, project: Id)
    | DoIngestFile(actor: Actor, project: Id, upload: Upload)
    | DoUpdateMetadata(actor: Actor, project: Id, document: Id, edit: Edit, reason: string)
    | DoSaveNote(actor: Actor, id: Id, project: Id, content: string, checkpoint: bool, supersedes: Option<Id>)
    | DoHypothesis(actor: Actor, id: Id, project: Id, status: ItemStatus, content: string,
                   passages: seq<Id>, supersedes: Option<Id>)
    | DoObjection(actor: Actor, id: Id, project: Id, status: ItemStatus, content: string,
                  about: Id, passages: seq<Id>)
    | DoReport(actor: Actor, id: Id, project: Id, status: ItemStatus, content: string,
               passages: seq<Id>, evidenceIds: seq<Id>, supersedes: Option<Id>)
    | DoVerifyQuote(actor: Actor, project: Id, passage: Id, quote: string, token: Id, secret: string, now: int)
    | DoSubmitEvidence(actor: Actor, project: Id, secret: string, evidence: Id, now: int)
    | DoRequestApproval(actor: Actor, project: Id, target: Target, id: Id)
    | DoDecideApproval(actor: Actor, request: Id, approve: bool)
    | DoCleanupTokens(actor: Actor, now: int)

  ghost function Apply(s: Store, lim: Limits, step: Step): Store {
    match step
    case DoCreateProject(a, p) => Commit(s, CreateProject(s, a, p))
    case DoArchiveProject(a, p) => Commit(s, ArchiveProject(s, a, p))
    case DoIngestFile(a, p, u) => Commit(s, IngestFile(s, a, p, u))
    case DoUpdateMetadata(a, p, d, e, reason) => Commit(s, UpdateMetadata(s, a, p, d, e, reason))
    case DoSaveNote(a, i, p, c, k, sup) => Commit(s, SaveNote(s, lim, a, i, p, c, k, sup))
    case DoHypothesis(a, i, p, st, c, ps, sup) => Commit(s, SubmitHypothesis(s, lim, a, i, p, st, c, ps, sup))
    case DoObjection(a, i, p, st, c, t, ps) => Commit(s, SubmitObjection(s, lim, a, i, p, st, c, t, ps))
    case DoReport(a, i, p, st, c, ps, es, sup) => Commit(s, SubmitReport(s, lim, a, i, p, st, c, ps, es, sup))
    case DoVerifyQuote(a, p, ps, q, t, sec, now) => Commit(s, VerifyQuote(s, lim, a, p, ps, q, t, sec, now))
    case DoSubmitEvidence(a, p, sec, e, now) => Commit(s, SubmitEvidence(s, a, p, sec, e, now))
    case DoRequestApproval(a, p, t, i) => Commit(s, RequestApproval(s, lim, a, p, t, i))
    case DoDecideApproval(a, i, ok) => Commit(s, DecideApproval(s, a, i, ok))
    case DoCleanupTokens(a, now) => Commit(s, CleanupTokens(s, a, now))
  }

  ghost function Run(s: Store, lim: Limits, steps: seq<Step>): Store
    decreases |steps|
  {
    if steps == [] then s else Run(Apply(s, lim, steps[0]), lim, steps[1..])
  }

  lemma {:induction false} RunAppend(s: Store, lim: Limits, steps: seq<Step>, step: Step)
    ensures Run(s, lim, steps + [step]) == Apply(Run(s, lim, steps), lim, step)
    decreases |steps|
  {
    if steps == [] {
      assert Run(Apply(s, lim, step), lim, []) == Apply(s, lim, step);
    } else {
      assert (steps + [step])[1..] == steps[1..] + [step];
      RunAppend(Apply(s, lim, steps[0]), lim, steps[1..], step);
    }
  }
}
