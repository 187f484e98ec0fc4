/**
 Sessions.  A session belongs to one actor and one project for ever, and an
 agent can create at most the configured number of items in it.
 */
module Sessions {
  import opened Wrappers
  import opened Store
  import opened Effects
  import opened Approvals

  predicate IsAgentCreation(row: AuditRow, session: string) {
    row.session == session && row.event.ItemSubmitted? && row.kind == Agent
  }

  /** Items agents have created in a session. */
  function AgentCreations(audit: seq<AuditRow>, session: string): nat {
    if audit == [] then 0 else
    AgentCreations(audit[..|audit| - 1], session) + (if IsAgentCreation(audit[|audit| - 1], session) then 1 else 0)
  }

  ghost predicate CreationsSucceed(audit: seq<AuditRow>) {
    forall k :: 0 <= k < |audit| && audit[k].event.ItemSubmitted? ==> audit[k].success
  }

  /** The quota counts at least the agent's creations, and possibly evidence too. */
  lemma {:induction false} CreationsAreSubmits(audit: seq<AuditRow>, session: string)
    requires CreationsSucceed(audit)
    ensures AgentCreations(audit, session) <= Submits(audit, session)
  {
    if audit != [] {
      CreationsAreSubmits(audit[..|audit| - 1], session);
    }
  }

  lemma CreationsAfterAppend(audit: seq<AuditRow>, row: AuditRow, session: string)
    ensures AgentCreations(audit + [row], session)
            == AgentCreations(audit, session) + if IsAgentCreation(row, session) then 1 else 0
  {
    assert (audit + [row])[..|audit|] == audit;
  }

  /** Every creation was made by the session's actor in the session's project. */
  ghost predicate Bound(s: Store) {
    forall k :: 0 <= k < |s.audit| && s.audit[k].event.ItemSubmitted? ==>
      && s.audit[k].session in s.sessions && s.audit[k].project.Some?
      && s.sessions[s.audit[k].session].actorId == s.audit[k].actorId
      && s.sessions[s.audit[k].session].project == s.audit[k].project
  }

  ghost predicate WithinQuota(s: Store, lim: Limits) {
    forall session :: AgentCreations(s.audit, session) <= lim.maxWrites
  }

  ghost predicate SessionInv(s: Store, lim: Limits) {
    CreationsSucceed(s.audit) && Bound(s) && WithinQuota(s, lim)
  }

  ghost predicate NoCreation(s: Store, t: Store) {
    && t.sessions == s.sessions
    && (t.audit == s.audit || exists row :: t.audit == s.audit + [row] && !row.event.ItemSubmitted?)
  }

  lemma NoCreationKeeps(s: Store, t: Store, lim: Limits)
    requires SessionInv(s, lim) && NoCreation(s, t)
    ensures SessionInv(t, lim)
  {
    if t.audit != s.audit {
      var row :| t.audit == s.audit + [row] && !row.event.ItemSubmitted?;
      forall session ensures AgentCreations(t.audit, session) <= lim.maxWrites {
        CreationsAfterAppend(s.audit, row, session);
      }
    }
  }

  lemma OtherStepsKeepSessions(s: Store, lim: Limits, step: Step)
    requires Creation(step).None?
    ensures Apply(s, lim, step).sessions == s.sessions
  {
    match step
    case DoRequestApproval(a, p, g, x) => FilingEffect(s, lim, a, p, g, x);
    case DoDecideApproval(a, x, ok) => DecidingEffect(s, a, x, ok);
    case DoVerifyQuote(a, p, ps, q, t, sec, now) => QuotingEffect(s, lim, a, p, ps, q, t, sec, now);
    case DoSubmitEvidence(a, p, sec, e, now) => RedeemingEffect(s, a, p, sec, e, now);
    case _ =>
  }

  lemma OtherStepsCreateNothing(s: Store, lim: Limits, step: Step)
    requires Creation(step).None?
    ensures NoCreation(s, Apply(s, lim, step))
  {
    OtherStepsKeepSessions(s, lim, step);
    if step.DoDecideApproval? {
      DecidingEffect(s, step.actor, step.request, step.approve);
      var t := Commit(s, DecideApproval(s, step.actor, step.request, step.approve));
      if t != s {
        var r := s.requests[FindPending(s.requests, step.request).value];
        var row := Row(step.actor, Some(r.project), ApprovalDecided(r.id, r.target, step.approve), true);
        assert t.audit == s.audit + [row];
      }
    } else {
      OtherStepsAuditPlainly(s, lim, step);
    }
  }

  lemma InsertionKeepsSessions(s: Store, lim: Limits, a: Actor, n: NewItem)
    requires SessionInv(s, lim) && CreateItem(s, lim, a, n).Done?
    ensures SessionInv(CreateItem(s, lim, a, n).store, lim)
    ensures a.sessionId in s.sessions && s.sessions[a.sessionId].project.Some? ==>
              CreateItem(s, lim, a, n).store.sessions == s.sessions
  {
    InsertionEffect(s, lim, a, n);
    var session := Touched(s, a, n.project).value;
    var t := Inserted(s, a, n, session);
    var row := Row(a, Some(n.project), ItemSubmitted(n.kind, n.id), true);
    assert t.audit == s.audit + [row];
    forall x ensures AgentCreations(t.audit, x) <= lim.maxWrites {
      CreationsAfterAppend(s.audit, row, x);
      CreationsAreSubmits(s.audit, x);
    }
  }

  lemma StepKeepsSessions(s: Store, lim: Limits, step: Step)
    requires SessionInv(s, lim)
    ensures SessionInv(Apply(s, lim, step), lim)
  {
    match Creation(step)
    case Some((a, n)) =>
      CreationIsInsertion(s, lim, step);
      if CreateItem(s, lim, a, n).Done? {
        InsertionKeepsSessions(s, lim, a, n);
      }
    case None =>
      OtherStepsCreateNothing(s, lim, step);
      NoCreationKeeps(s, Apply(s, lim, step), lim);
  }

  lemma {:induction false} RunKeepsSessions(s: Store, lim: Limits, steps: seq<Step>)
    requires SessionInv(s, lim)
    ensures SessionInv(Run(s, lim, steps), lim)
    decreases |steps|
  {
    if steps != [] {
      StepKeepsSessions(s, lim, steps[0]);
      RunKeepsSessions(Apply(s, lim, steps[0]), lim, steps[1..]);
    }
  }

  /**
   In every run, an agent session creates at most `maxWrites` items, and all the
   items created in one session have one author and one project.
   */
  lemma SessionsAreBoundAndBounded(lim: Limits, steps: seq<Step>, session: string)
    ensures var s := Run(EMPTY_STORE, lim, steps);
            && AgentCreations(s.audit, session) <= lim.maxWrites
            && forall j, k | 0 <= j < |s.audit| && 0 <= k < |s.audit|
                 && s.audit[j].event.ItemSubmitted? && s.audit[k].event.ItemSubmitted?
                 && s.audit[j].session == session && s.audit[k].session == session ::
                 s.audit[j].actorId == s.audit[k].actorId && s.audit[j].project == s.audit[k].project
  {
    RunKeepsSessions(EMPTY_STORE, lim, steps);
  }
}
