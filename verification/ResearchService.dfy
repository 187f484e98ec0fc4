/**
 The service over mutable tables.  Each method is one database transaction: it
 works through the guards in the source's order, writes rows as it goes, and a
 failure part-way restores the tables it began with.
 */
module ResearchService {
  import opened Wrappers
  import opened Text
  import opened Corpus
  import opened Store
  import Tx = Store
  import opened Checkpoints
  import opened EvidenceTokens
  import opened Approvals

  datatype Result<+T> = Ok(value: T) | Err(reason: Refusal)

  function Verdict<T>(o: Outcome<T>): Result<T> {
    if o.Done? then Ok(o.reply) else Err(o.reason)
  }

  class ResearchDatabase {
    var tables: Store
    const limits: Limits

    /** The transactions executed so far, refused ones included. */
    ghost var trace: seq<Step>

    /** The tables are what those transactions make of an empty database. */
    ghost predicate Valid()
      reads this
    {
      tables == Run(EMPTY_STORE, limits, trace)
    }

    constructor (limits: Limits)
      ensures Valid() && tables == EMPTY_STORE && this.limits == limits && trace == []
    {
      tables := EMPTY_STORE;
      trace := [];
      this.limits := limits;
    }

    /** A valid database satisfies the invariants of every run. */
    lemma Invariants()
      requires Valid()
      ensures GovernanceInv(tables) && TokenInv(tables) && OneOpenPerTarget(tables)
    {
      assert forall p :: Line(EMPTY_STORE, p);
      RunKeepsGovernance(EMPTY_STORE, limits, trace);
      RunKeepsTokens(EMPTY_STORE, limits, trace);
      RunKeepsOneOpen(EMPTY_STORE, limits, trace);
    }

    /** What the transactions themselves rely on. */
    lemma Keys()
      requires Valid()
      ensures Ordered(tables) && SecretsUnique(tables)
    {
      Invariants();
    }

    /** Notes a transaction; the tables must then become its result. */
    ghost method Begin(step: Step)
      requires Valid()
      modifies this`trace
      ensures trace == old(trace) + [step]
      ensures Run(EMPTY_STORE, limits, trace) == Apply(tables, limits, step)
    {
      RunAppend(EMPTY_STORE, limits, trace, step);
      trace := trace + [step];
    }

    /** The rows of the current-checkpoint query whose payload carries the marker. */
    method CurrentStandardCheckpoints(project: Id) returns (current: seq<Id>)
      requires Ordered(tables)
      ensures current == CurrentCheckpoints(tables, project)
    {
      current := [];
      for k := 0 to |tables.order|
        invariant current == CurrentAmong(tables, project, tables.order[..k])
      {
        var i := tables.order[k];
        assert i in tables.items;
        assert tables.order[..k + 1] == tables.order[..k] + [i];
        QueriesByRow(tables, project, tables.order[..k], i);
        var row := tables.items[i];
        if row.project == project && row.kind == Note && row.status !in {ItemStatus.Archived, Rejected}
           && !HasAnySuccessor(tables, i) {
          if IsStandardCheckpoint(row.payload) {
            current := current + [i];
          }
        }
      }
      assert tables.order[..|tables.order|] == tables.order;
    }

    method CrossKindCheckpointSuccessors(project: Id) returns (anomalies: seq<Id>)
      requires Ordered(tables)
      ensures anomalies == CrossKindSuccessors(tables, project)
    {
      anomalies := [];
      for k := 0 to |tables.order|
        invariant anomalies == CrossKindAmong(tables, project, tables.order[..k])
      {
        var i := tables.order[k];
        assert tables.order[..k + 1] == tables.order[..k] + [i];
        QueriesByRow(tables, project, tables.order[..k], i);
        var row := tables.items[i];
        if row.supersedes.Some? && IsCheckpointOf(tables, project, row.supersedes.value) {
          if row.kind != Note || !IsStandardCheckpoint(row.payload) {
            anomalies := anomalies + [i];
          }
        }
      }
      assert tables.order[..|tables.order|] == tables.order;
    }

    method ValidateCheckpointSuccessor(project: Id, supersedes: Option<Id>) returns (problem: Option<Refusal>)
      requires Ordered(tables)
      ensures problem == CheckpointProblem(tables, project, supersedes)
    {
      var anomalies := CrossKindCheckpointSuccessors(project);
      if anomalies != [] {
        return Some(CheckpointConflict);
      }
      var current := CurrentStandardCheckpoints(project);
      if |current| > 1 {
        return Some(CheckpointConflict);
      }
      if |current| == 0 {
        return if supersedes.Some? then Some(CheckpointConflict) else None;
      }
      var target := current[0];
      if supersedes != Some(target) {
        return Some(CheckpointConflict);
      }
      if target !in tables.items || tables.items[target].project != project {
        return Some(CheckpointConflict);
      }
      var row := tables.items[target];
      if row.kind != Note || row.status in {ItemStatus.Archived, Rejected} || !IsStandardCheckpoint(row.payload) {
        return Some(CheckpointConflict);
      }
      if HasAnySuccessor(tables, target) {
        return Some(CheckpointConflict);
      }
      problem := None;
    }

    /** Binds the session, or reports that it is bound to another actor or project. */
    method TouchSession(a: Actor, project: Id) returns (bound: bool)
      modifies this`tables
      ensures bound <==> Touched(old(tables), a, project).Some?
      ensures tables == if bound
                        then old(tables).(sessions :=
                          old(tables).sessions[a.sessionId := Touched(old(tables), a, project).value])
                        else old(tables)
    {
      if a.sessionId in tables.sessions {
        var was := tables.sessions[a.sessionId];
        if was.actorId != a.actorId || (was.project.Some? && was.project.value != project) {
          return false;
        }
        tables := tables.(sessions := tables.sessions[a.sessionId := was.(project := Some(project))]);
      } else {
        tables := tables.(sessions := tables.sessions[a.sessionId := Session(a.actorId, Some(project))]);
      }
      bound := true;
    }

    /** The first link outside the project, if any; the source inserts link rows as it goes. */
    method LinksAreInScope(n: NewItem) returns (ok: bool)
      ensures ok <==> LinksInScope(tables, n)
    {
      for k := 0 to |n.passages|
        invariant forall j :: 0 <= j < k ==> PassageInProject(tables.corpus, n.project, n.passages[j]).Some?
      {
        if PassageInProject(tables.corpus, n.project, n.passages[k]).None? {
          return false;
        }
      }
      for k := 0 to |n.evidence|
        invariant forall j :: 0 <= j < k ==> EvidenceInProject(tables, n.project, n.evidence[j])
      {
        if !EvidenceInProject(tables, n.project, n.evidence[k]) {
          return false;
        }
      }
      ok := true;
    }

    /**
     The shared creation path.  The session, the item and its audit row are
     written before the links are checked, so a bad link rolls them back.
     */
    method CreateItem(a: Actor, n: NewItem) returns (r: Result<Id>)
      requires Ordered(tables)
      modifies this`tables
      ensures r == Verdict(Tx.CreateItem(old(tables), limits, a, n))
      ensures tables == Commit(old(tables), Tx.CreateItem(old(tables), limits, a, n))
    {
      var begin := tables;
      if !a.IsAdmin() && n.status !in {Draft, ItemStatus.Candidate} {
        return Err(AgentStatus);
      }
      if OverQuota(tables, limits, a) {
        return Err(QuotaExceeded);
      }
      if !IsActive(tables, n.project) {
        return Err(ProjectNotActive);
      }
      if n.standardCheckpoint {
        if n.kind != Note || !IsStandardCheckpoint(n.payload)
           || n.payload.checkpointVersion != Some(CHECKPOINT_VERSION) {
          return Err(InvalidCheckpoint);
        }
        var problem := ValidateCheckpointSuccessor(n.project, n.supersedes);
        if problem.Some? {
          return Err(problem.value);
        }
      } else {
        if n.kind == Note && n.supersedes.Some? {
          return Err(InvalidSuccessor);
        }
        if IsStandardCheckpoint(n.payload) {
          return Err(InvalidCheckpoint);
        }
        if n.supersedes.Some? {
          var prior := n.supersedes.value;
          if prior !in tables.items || tables.items[prior].project != n.project {
            return Err(InvalidSuccessor);
          }
          if IsCheckpoint(tables, prior) {
            return Err(CheckpointConflict);
          }
        }
      }
      var bound := TouchSession(a, n.project);
      if !bound {
        return Err(SessionConflict);
      }
      if n.supersedes == Some(n.id) {
        tables := begin;
        return Err(InvalidSuccessor);
      }
      if n.id in tables.items {
        tables := begin;
        return Err(IntegrityError);
      }
      tables := tables.(
        items := tables.items[n.id := Item(n.project, n.kind, n.status, a.actorId, n.supersedes, n.payload)],
        order := tables.order + [n.id]);
      var linked := LinksAreInScope(n);
      assert LinksInScope(tables, n) <==> LinksInScope(begin, n);
      if !linked {
        tables := begin;
        return Err(OutOfScope);
      }
      tables := tables.(audit := tables.audit + [Row(a, Some(n.project), ItemSubmitted(n.kind, n.id), true)]);
      r := Ok(n.id);
    }

    /** Saves a research note, or a checkpoint succeeding the project's current one. */
    method SaveResearchNote(a: Actor, id: Id, project: Id, content: string, checkpoint: bool,
                            supersedes: Option<Id>) returns (r: Result<Id>)
      requires Valid()
      modifies this`tables, this`trace
      ensures Valid() && trace == old(trace) + [DoSaveNote(a, id, project, content, checkpoint, supersedes)]
      ensures r == Verdict(SaveNote(old(tables), limits, a, id, project, content, checkpoint, supersedes))
      ensures tables == Commit(old(tables), SaveNote(old(tables), limits, a, id, project, content, checkpoint, supersedes))
      ensures r.Ok? && checkpoint ==> Chain(tables, project) == Chain(old(tables), project) + [id]
    {
      Keys();
      Begin(DoSaveNote(a, id, project, content, checkpoint, supersedes));
      if !checkpoint && supersedes.Some? {
        return Err(InvalidArgument);
      }
      NoteEndsChain(tables, a, id, project, content, checkpoint, supersedes);
      r := CreateItem(a, NoteItem(id, project, content, checkpoint, supersedes));
    }

    lemma NoteEndsChain(before: Store, a: Actor, id: Id, project: Id, content: string, checkpoint: bool, supersedes: Option<Id>)
      requires Ordered(before)
      ensures var note := SaveNote(before, limits, a, id, project, content, checkpoint, supersedes);
              note.Done? && checkpoint ==> Chain(Commit(before, note), project) == Chain(before, project) + [id]
    {
      var n := NoteItem(id, project, content, checkpoint, supersedes);
      if SaveNote(before, limits, a, id, project, content, checkpoint, supersedes).Done? {
        ChainAfterInsert(before, a, n, Touched(before, a, project).value, project);
      }
    }

    /** Issues a single-use token when the stripped quote occurs verbatim in the passage. */
    method VerifyQuote(a: Actor, project: Id, passage: Id, quote: string, token: Id, secret: string, now: int)
      returns (r: Result<bool>)
      requires Valid()
      modifies this`tables, this`trace
      ensures Valid() && trace == old(trace) + [DoVerifyQuote(a, project, passage, Strip(quote), token, secret, now)]
      ensures r == Verdict(Tx.VerifyQuote(old(tables), limits, a, project, passage, Strip(quote), token, secret, now))
    {
      var stripped := Strip(quote);
      Begin(DoVerifyQuote(a, project, passage, stripped, token, secret, now));
      r := VerifyStripped(a, project, passage, stripped, token, secret, now);
    }

    method VerifyStripped(a: Actor, project: Id, passage: Id, quote: string, token: Id, secret: string, now: int)
      returns (r: Result<bool>)
      modifies this`tables
      ensures r == Verdict(Tx.VerifyQuote(old(tables), limits, a, project, passage, quote, token, secret, now))
      ensures tables == Commit(old(tables), Tx.VerifyQuote(old(tables), limits, a, project, passage, quote, token, secret, now))
    {
      if |quote| < MIN_QUOTE {
        return Err(InvalidArgument);
      }
      if !IsActive(tables, project) {
        return Err(ProjectNotActive);
      }
      var row := PassageInProject(tables.corpus, project, passage);
      if row.None? {
        return Err(NotFound);
      }
      var (p, d) := row.value;
      var at := Find(p.text, quote, 0);
      assert at.Some? <==> ContainsQuote(quote, p.text);
      if at.None? {
        tables := tables.(audit := tables.audit + [Row(a, Some(project), QuoteVerified(passage), false)]);
        return Ok(false);
      }
      if token in tables.tokens || SecretUsed(tables, secret) {
        return Err(IntegrityError);
      }
      var expires := Seconds(now + limits.tokenTtlSeconds * MICROS);
      tables := tables.(tokens := tables.tokens[token := Token(secret, passage, d.contentHash, quote, a.actorId,
                                                               a.sessionId, expires, None, project, VersionOf(d))]);
      tables := tables.(audit := tables.audit + [Row(a, Some(project), QuoteVerified(passage), true)]);
      r := Ok(true);
    }

    /** Redeems a token: evidence, its first status row, then the token's consumption. */
    method SubmitVerifiedEvidence(a: Actor, project: Id, secret: string, evidence: Id, now: int) returns (r: Result<Id>)
      requires Valid()
      modifies this`tables, this`trace
      ensures Valid() && trace == old(trace) + [DoSubmitEvidence(a, project, secret, evidence, now)]
      ensures r == Verdict(SubmitEvidence(old(tables), a, project, secret, evidence, now))
      ensures tables == Commit(old(tables), SubmitEvidence(old(tables), a, project, secret, evidence, now))
    {
      Keys();
      Begin(DoSubmitEvidence(a, project, secret, evidence, now));
      if !IsActive(tables, project) {
        return Err(ProjectNotActive);
      }
      var matches := set t | t in tables.tokens && tables.tokens[t].secret == secret && tables.tokens[t].project == project
                             && PassageInProject(tables.corpus, project, tables.tokens[t].passage).Some?;
      assert forall t :: t in matches <==> Presents(tables, project, secret, t);
      if matches == {} {
        return Err(InvalidToken);
      }
      var t :| t in matches;
      assert Presents(tables, project, secret, t);
      var token := tables.tokens[t];
      var (p, d) := PassageInProject(tables.corpus, project, token.passage).value;
      if token.issuedTo != a.actorId || token.issuedSession != a.sessionId {
        return Err(ForeignToken);
      }
      if token.consumedAt.Some? {
        return Err(TokenConsumed);
      }
      if Expired(token, now) {
        return Err(TokenExpired);
      }
      if !SourceUnchanged(token, p, d) {
        return Err(SourceChanged);
      }
      if evidence in tables.evidence || HasHistory(tables.history, evidence) {
        return Err(IntegrityError);
      }
      tables := tables.(evidence := tables.evidence[evidence := Evidence(
        token.passage, p.document, token.documentHash, token.quote, a.actorId, token.sourceVersion)]);
      tables := tables.(history := tables.history + [StatusEvent(evidence, EvidenceCandidate)]);
      tables := tables.(tokens := tables.tokens[t := token.(consumedAt := Some(Seconds(now)))]);
      tables := tables.(audit := tables.audit + [Row(a, Some(project), EvidenceSubmitted(t, evidence), true)]);
      r := Ok(evidence);
    }

    /** Opens a review, or returns the one already open for the target. */
    method RequestUserApproval(a: Actor, project: Id, target: Target, id: Id) returns (r: Result<Id>)
      requires Valid()
      modifies this`tables, this`trace
      ensures Valid() && trace == old(trace) + [DoRequestApproval(a, project, target, id)]
      ensures r == Verdict(RequestApproval(old(tables), limits, a, project, target, id))
      ensures tables == Commit(old(tables), RequestApproval(old(tables), limits, a, project, target, id))
    {
      Keys();
      Begin(DoRequestApproval(a, project, target, id));
      if !IsActive(tables, project) {
        return Err(ProjectNotActive);
      }
      if OverQuota(tables, limits, a) {
        return Err(QuotaExceeded);
      }
      if !TargetInProject(tables, project, target) {
        return Err(OutOfScope);
      }
      var existing := FirstPending(tables.requests, project, target);
      if existing.Some? {
        return Ok(tables.requests[existing.value].id);
      }
      if !TargetIsCandidate(tables, target) {
        return Err(NotCandidate);
      }
      if RequestIdUsed(tables, id) {
        return Err(IntegrityError);
      }
      tables := tables.(requests := tables.requests + [Request(id, project, target, a.actorId, Pending)]);
      if target.ItemTarget? {
        tables := WithStatus(tables, target.item, UnderReview);
      }
      tables := tables.(audit := tables.audit + [Row(a, Some(project), ApprovalRequested(target), true)]);
      r := Ok(id);
    }

    /**
     Decides an open request.  The request is closed before its target is
     updated, so a trigger that refuses the target's transition rolls it back.
     */
    method DecideApproval(a: Actor, id: Id, approve: bool) returns (r: Result<Target>)
      requires Valid()
      modifies this`tables, this`trace
      ensures Valid() && trace == old(trace) + [DoDecideApproval(a, id, approve)]
      ensures r == Verdict(Tx.DecideApproval(old(tables), a, id, approve))
      ensures tables == Commit(old(tables), Tx.DecideApproval(old(tables), a, id, approve))
    {
      Keys();
      Begin(DoDecideApproval(a, id, approve));
      var begin := tables;
      if !a.IsAdmin() {
        return Err(AdminOnly);
      }
      var found := FindPending(tables.requests, id);
      if found.None? {
        return Err(NotPending);
      }
      var k := found.value;
      var request := tables.requests[k];
      if approve && request.target.ItemTarget? && HasProjectSuccessor(tables, request.project, request.target.item) {
        return Err(HasSuccessor);
      }
      tables := tables.(requests := tables.requests[k := request.(status := if approve then Approved else Declined)]);
      match request.target {
        case ItemTarget(i) =>
          if i !in tables.items || tables.items[i].status != UnderReview {
            tables := begin;
            return Err(IntegrityError);
          }
          tables := WithStatus(tables, i, if approve then Accepted else Rejected);
        case EvidenceTarget(e) =>
          if EvidenceStatusOf(tables.history, e) != EvidenceCandidate {
            tables := begin;
            return Err(IntegrityError);
          }
          tables := tables.(history := tables.history
            + [StatusEvent(e, if approve then EvidenceAccepted else EvidenceRejected)]);
      }
      tables := tables.(audit := tables.audit
        + [Row(a, Some(request.project), ApprovalDecided(request.id, request.target, approve), true)]);
      r := Ok(request.target);
    }
  }
}
