/**
 The checkpoint chain.  In every run, by researchers or administrators, the
 standard checkpoints of a project form one line, oldest first, and the
 supersedes relation over all items points back in time inside one project.
 */
module Checkpoints {
  import opened Wrappers
  import opened Corpus
  import opened Store
  import opened Effects

  /** A project's standard checkpoints in the order they were created. */
  ghost function Chain(s: Store, project: Id): seq<Id> {
    Filter(i => IsCheckpointOf(s, project, i), s.order)
  }

  /** The insertion order lists every item once. */
  ghost predicate Ordered(s: Store) {
    Distinct(s.order) && forall i :: i in s.order <==> i in s.items
  }

  /** The k-th row points back, if anywhere, to an older row of its project. */
  ghost predicate RowPointsBack(items: map<Id, Item>, order: seq<Id>, k: nat)
    requires k < |order|
  {
    && order[k] in items
    && match items[order[k]].supersedes
       case None => true
       case Some(t) => t in order[..k] && t in items && items[t].project == items[order[k]].project
  }

  /** Every superseded item is older than its successor and of the same project. */
  ghost predicate PointsBack(s: Store) {
    forall k :: 0 <= k < |s.order| ==> RowPointsBack(s.items, s.order, k)
  }

  /** Checkpoints never leave draft, and only a checkpoint supersedes a checkpoint. */
  ghost predicate Uniform(s: Store) {
    forall i :: i in s.items ==>
      && (IsCheckpoint(s, i) ==> s.items[i].status == Draft)
      && (s.items[i].supersedes.Some? && IsCheckpoint(s, s.items[i].supersedes.value) ==> IsCheckpoint(s, i))
  }

  /** The k-th element of a line supersedes the one before it; the first, nothing. */
  ghost predicate LinkAt(items: map<Id, Item>, line: seq<Id>, k: nat)
    requires k < |line|
  {
    line[k] in items && items[line[k]].supersedes == if k == 0 then None else Some(line[k - 1])
  }

  ghost predicate IsLine(items: map<Id, Item>, line: seq<Id>) {
    forall k :: 0 <= k < |line| ==> LinkAt(items, line, k)
  }

  ghost predicate Line(s: Store, project: Id) {
    IsLine(s.items, Chain(s, project))
  }

  ghost predicate ChainInv(s: Store) {
    Ordered(s) && PointsBack(s) && Uniform(s) && forall p :: Line(s, p)
  }

  // ----- what the invariant says -----

  lemma ChainDistinct(s: Store, project: Id)
    requires Ordered(s)
    ensures Distinct(Chain(s, project))
  {
    FilterDistinct(i => IsCheckpointOf(s, project, i), s.order);
  }

  /** The superseded item of any item exists, in the same project. */
  lemma TargetExists(s: Store, i: Id)
    requires Ordered(s) && PointsBack(s) && i in s.items && s.items[i].supersedes.Some?
    ensures s.items[i].supersedes.value in s.items
    ensures s.items[s.items[i].supersedes.value].project == s.items[i].project
  {
    var k: nat :| k < |s.order| && s.order[k] == i;
    assert RowPointsBack(s.items, s.order, k);
  }

  /** In a duplicate-free line the element superseding the k-th is the next one. */
  lemma PreviousInLine(items: map<Id, Item>, line: seq<Id>, k: nat, m: nat)
    requires IsLine(items, line) && Distinct(line) && k < |line| && m < |line|
    requires line[m] in items && items[line[m]].supersedes == Some(line[k])
    ensures m == k + 1
  {
    assert LinkAt(items, line, m);
    assert line[m - 1] == line[k];
  }

  /** A successor of a checkpoint is the checkpoint after it. */
  lemma SuccessorIsNext(s: Store, project: Id, k: nat, j: Id)
    requires ChainInv(s) && k < |Chain(s, project)| && Supersedes(s, j, Chain(s, project)[k])
    ensures k + 1 < |Chain(s, project)| && j == Chain(s, project)[k + 1]
  {
    var chain := Chain(s, project);
    ChainDistinct(s, project);
    assert chain[k] in chain;
    TargetExists(s, j);
    assert j in chain;
    var m :| 0 <= m < |chain| && chain[m] == j;
    PreviousInLine(s.items, chain, k, m) by {
      assert Line(s, project);
    }
  }

  /** The successors of the k-th checkpoint are exactly the (k+1)-th. */
  lemma SuccessorInChain(s: Store, project: Id, k: nat, j: Id)
    requires ChainInv(s) && k < |Chain(s, project)|
    ensures Supersedes(s, j, Chain(s, project)[k])
            <==> k + 1 < |Chain(s, project)| && j == Chain(s, project)[k + 1]
  {
    if Supersedes(s, j, Chain(s, project)[k]) {
      SuccessorIsNext(s, project, k, j);
    } else if k + 1 < |Chain(s, project)| {
      assert Line(s, project);
      assert LinkAt(s.items, Chain(s, project), k + 1);
    }
  }

  /** Of the chain, exactly the newest checkpoint is current. */
  lemma CurrentIffNewest(s: Store, project: Id, k: nat)
    requires ChainInv(s) && k < |Chain(s, project)|
    ensures IsCurrentCheckpoint(s, project, Chain(s, project)[k]) <==> k == |Chain(s, project)| - 1
  {
    var chain := Chain(s, project);
    assert chain[k] in chain;
    if k + 1 < |chain| {
      SuccessorInChain(s, project, k, chain[k + 1]);
    } else {
      forall j ensures !Supersedes(s, j, chain[k]) {
        SuccessorInChain(s, project, k, j);
      }
    }
  }

  /** The service's current checkpoints are the newest one, or none. */
  lemma CurrentIsNewest(s: Store, project: Id)
    requires ChainInv(s)
    ensures var chain := Chain(s, project);
            CurrentCheckpoints(s, project) == if chain == [] then [] else [chain[|chain| - 1]]
  {
    var chain := Chain(s, project);
    var current := i => IsCurrentCheckpoint(s, project, i);
    ChainDistinct(s, project);
    FilterFilter(current, i => IsCheckpointOf(s, project, i), s.order);
    if chain != [] {
      forall i | i in chain ensures current(i) <==> i == chain[|chain| - 1] {
        var k :| 0 <= k < |chain| && chain[k] == i;
        CurrentIffNewest(s, project, k);
      }
      FilterOnlyLast(current, chain);
    }
  }

  /**
   At most one checkpoint is current: the newest.  Every older one has exactly
   one successor over the whole store, the next checkpoint of its project.
   */
  lemma OneCurrentCheckpoint(s: Store, project: Id)
    requires ChainInv(s)
    ensures var chain := Chain(s, project);
            CurrentCheckpoints(s, project) == if chain == [] then [] else [chain[|chain| - 1]]
    ensures forall k, j :: 0 <= k < |Chain(s, project)| - 1 ==>
      (Supersedes(s, j, Chain(s, project)[k]) <==> j == Chain(s, project)[k + 1])
  {
    CurrentIsNewest(s, project);
    forall k, j | 0 <= k < |Chain(s, project)| - 1
      ensures Supersedes(s, j, Chain(s, project)[k]) <==> j == Chain(s, project)[k + 1]
    {
      SuccessorInChain(s, project, k, j);
    }
  }

  lemma NoCrossKindSuccessors(s: Store, project: Id)
    requires ChainInv(s)
    ensures CrossKindSuccessors(s, project) == []
  {
    FilterEmptyIff(i => IsCrossKindSuccessor(s, project, i), s.order);
  }

  /** A walk along supersedes links, newest first. */
  ghost predicate IsWalk(s: Store, walk: seq<Id>) {
    forall k :: 0 <= k < |walk| - 1 ==> Supersedes(s, walk[k], walk[k + 1])
  }

  ghost function Position(s: Store, i: Id): (k: nat)
    requires Ordered(s) && i in s.items
    ensures k < |s.order| && s.order[k] == i
  {
    var k :| 0 <= k < |s.order| && s.order[k] == i;
    k
  }

  /** Walking back always reaches strictly older items of the same project. */
  lemma {:induction false} WalkGoesBack(s: Store, walk: seq<Id>)
    requires Ordered(s) && PointsBack(s) && IsWalk(s, walk) && |walk| > 1
    ensures walk[0] in s.items && walk[|walk| - 1] in s.items
    ensures Position(s, walk[|walk| - 1]) < Position(s, walk[0])
    ensures s.items[walk[|walk| - 1]].project == s.items[walk[0]].project
  {
    assert Supersedes(s, walk[0], walk[1]);
    TargetExists(s, walk[0]);
    var k := Position(s, walk[0]);
    assert RowPointsBack(s.items, s.order, k);
    assert walk[1] in s.order[..k];
    var j :| 0 <= j < k && s.order[j] == walk[1];
    assert Position(s, walk[1]) == j;
    if |walk| > 2 {
      forall m | 0 <= m < |walk[1..]| - 1 ensures Supersedes(s, walk[1..][m], walk[1..][m + 1]) {
        assert Supersedes(s, walk[m + 1], walk[m + 2]);
      }
      WalkGoesBack(s, walk[1..]);
    }
  }

  /** The supersedes relation has no cycle. */
  lemma SupersedesIsAcyclic(s: Store, walk: seq<Id>)
    requires ChainInv(s) && IsWalk(s, walk) && |walk| > 1
    ensures walk[0] != walk[|walk| - 1]
  {
    WalkGoesBack(s, walk);
  }

  // ----- every transaction keeps it -----

  /** The columns the invariant reads are those of `s`. */
  ghost predicate SameShape(s: Store, t: Store) {
    && t.order == s.order
    && t.items.Keys == s.items.Keys
    && forall i :: i in s.items ==>
      && t.items[i].project == s.items[i].project
      && t.items[i].kind == s.items[i].kind
      && t.items[i].payload == s.items[i].payload
      && t.items[i].supersedes == s.items[i].supersedes
      && (t.items[i].status == s.items[i].status || s.items[i].status != Draft)
  }

  lemma SameShapeKeepsPointsBack(s: Store, t: Store)
    requires Ordered(s) && PointsBack(s) && SameShape(s, t)
    ensures Ordered(t) && PointsBack(t)
  {
    forall k: nat | k < |t.order| ensures RowPointsBack(t.items, t.order, k) {
      assert RowPointsBack(s.items, s.order, k);
    }
  }

  lemma SameShapeKeepsLine(s: Store, t: Store, p: Id)
    requires Ordered(s) && Line(s, p) && SameShape(s, t)
    ensures Line(t, p) && Chain(t, p) == Chain(s, p)
  {
    FilterCongruence(i => IsCheckpointOf(t, p, i), i => IsCheckpointOf(s, p, i), s.order);
    var chain := Chain(s, p);
    assert Chain(t, p) == chain;
    forall k | 0 <= k < |chain| ensures LinkAt(t.items, chain, k) {
      assert LinkAt(s.items, chain, k);
    }
  }

  lemma SameShapeKeepsUniform(s: Store, t: Store)
    requires Ordered(s) && PointsBack(s) && Uniform(s) && SameShape(s, t)
    ensures Uniform(t)
  {
    forall i | i in t.items
      ensures IsCheckpoint(t, i) ==> t.items[i].status == Draft
      ensures t.items[i].supersedes.Some? && IsCheckpoint(t, t.items[i].supersedes.value) ==> IsCheckpoint(t, i)
    {
      assert i in s.items && (IsCheckpoint(t, i) <==> IsCheckpoint(s, i));
      if s.items[i].supersedes.Some? {
        TargetExists(s, i);
      }
    }
  }

  lemma SameShapeKeeps(s: Store, t: Store)
    requires ChainInv(s) && SameShape(s, t)
    ensures ChainInv(t)
  {
    SameShapeKeepsPointsBack(s, t);
    SameShapeKeepsUniform(s, t);
    forall p ensures Line(t, p) {
      assert Line(s, p);
      SameShapeKeepsLine(s, t, p);
    }
  }

  /** The new chain of each project after an insertion. */
  lemma ChainAfterInsert(s: Store, a: Actor, n: NewItem, session: Session, p: Id)
    requires Ordered(s) && n.id !in s.items
    ensures var t := Inserted(s, a, n, session);
            Chain(t, p) == Chain(s, p) + (if IsCheckpointOf(t, p, n.id) then [n.id] else [])
  {
    var t := Inserted(s, a, n, session);
    var now := i => IsCheckpointOf(t, p, i);
    FilterAppend(now, s.order, n.id);
    FilterCongruence(now, i => IsCheckpointOf(s, p, i), s.order);
  }

  /** What the next checkpoint of a project supersedes: the newest one, if there is any. */
  ghost function Newest(s: Store, project: Id): Option<Id> {
    var chain := Chain(s, project);
    if chain == [] then None else Some(chain[|chain| - 1])
  }

  /** The checkpoint rules let exactly the successor of the newest checkpoint through. */
  lemma RightSuccessorIff(s: Store, project: Id, supersedes: Option<Id>)
    requires ChainInv(s)
    ensures CheckpointProblem(s, project, supersedes).None? <==> supersedes == Newest(s, project)
  {
    NoCrossKindSuccessors(s, project);
    CurrentIsNewest(s, project);
    var chain := Chain(s, project);
    if chain != [] {
      CurrentIffNewest(s, project, |chain| - 1);
    }
  }

  lemma NewestExists(s: Store, project: Id)
    requires ChainInv(s) && Newest(s, project).Some?
    ensures Newest(s, project).value in s.items
  {
    assert Newest(s, project).value in Chain(s, project);
  }

  /**
   A checkpoint is saved just when the session may still write to this active
   project, the key is new, and the newest checkpoint is the one superseded.
   */
  lemma CheckpointIsSavedIff(s: Store, lim: Limits, a: Actor, id: Id, project: Id, content: string, supersedes: Option<Id>)
    requires ChainInv(s)
    ensures SaveNote(s, lim, a, id, project, content, true, supersedes).Done? <==>
            && !OverQuota(s, lim, a) && IsActive(s, project) && Touched(s, a, project).Some? && id !in s.items
            && supersedes == Newest(s, project)
  {
    RightSuccessorIff(s, project, supersedes);
    if Newest(s, project).Some? {
      NewestExists(s, project);
    }
  }

  /** A saved checkpoint becomes the newest of its project. */
  lemma SavedCheckpointIsNewest(s: Store, lim: Limits, a: Actor, id: Id, project: Id, content: string, supersedes: Option<Id>)
    requires ChainInv(s) && SaveNote(s, lim, a, id, project, content, true, supersedes).Done?
    ensures var o := SaveNote(s, lim, a, id, project, content, true, supersedes);
            o.reply == id && Chain(o.store, project) == Chain(s, project) + [id]
  {
    var n := NoteItem(id, project, content, true, supersedes);
    InsertionEffect(s, lim, a, n);
    ChainAfterInsert(s, a, n, Touched(s, a, project).value, project);
  }

  /** Any other target is a conflict. */
  lemma WrongSuccessorConflicts(s: Store, lim: Limits, a: Actor, id: Id, project: Id, content: string, supersedes: Option<Id>)
    requires ChainInv(s) && !OverQuota(s, lim, a) && IsActive(s, project) && supersedes != Newest(s, project)
    ensures SaveNote(s, lim, a, id, project, content, true, supersedes) == Refused(CheckpointConflict)
  {
    RightSuccessorIff(s, project, supersedes);
    OnlyConflicts(s, project, supersedes);
  }

  lemma OnlyConflicts(s: Store, project: Id, supersedes: Option<Id>)
    ensures CheckpointProblem(s, project, supersedes).None? || CheckpointProblem(s, project, supersedes) == Some(CheckpointConflict)
  {
  }

  /** A hypothesis, objection or report is accepted just when nothing speaks against it. */
  lemma ItemIsSavedIff(s: Store, lim: Limits, a: Actor, n: NewItem)
    requires ChainInv(s) && n.kind != Note && !n.standardCheckpoint && !IsStandardCheckpoint(n.payload)
    ensures CreateItem(s, lim, a, n).Done? <==>
            && (a.IsAdmin() || n.status == Draft || n.status == ItemStatus.Candidate)
            && !OverQuota(s, lim, a) && IsActive(s, n.project) && Touched(s, a, n.project).Some? && n.id !in s.items
            && (forall p :: p in n.passages ==> PassageInProject(s.corpus, n.project, p).Some?)
            && (forall e :: e in n.evidence ==> e in s.evidence && LinkedTo(s.corpus, n.project, s.evidence[e].document))
            && (n.supersedes.Some? ==>
                  && n.supersedes.value in s.items && s.items[n.supersedes.value].project == n.project
                  && n.supersedes.value !in Chain(s, n.project))
  {
    if n.supersedes.Some? && n.supersedes.value in s.items {
      assert n.supersedes.value in Chain(s, n.project) <==> IsCheckpointOf(s, n.project, n.supersedes.value);
    }
  }

  /** What the guards of an insertion establish about the superseded item. */
  lemma GuardedTarget(s: Store, lim: Limits, a: Actor, n: NewItem)
    requires ChainInv(s) && CreateItem(s, lim, a, n).Done?
    ensures n.id !in s.items
    ensures n.standardCheckpoint <==> (n.kind == Note && IsStandardCheckpoint(n.payload))
    ensures n.standardCheckpoint ==>
              var chain := Chain(s, n.project);
              n.supersedes == if chain == [] then None else Some(chain[|chain| - 1])
    ensures n.supersedes.Some? ==>
              var target := n.supersedes.value;
              && target in s.items && s.items[target].project == n.project
              && (IsCheckpoint(s, target) ==> n.standardCheckpoint)
  {
    NoCrossKindSuccessors(s, n.project);
    CurrentIsNewest(s, n.project);
    if n.standardCheckpoint && n.supersedes.Some? {
      assert n.supersedes.value in Chain(s, n.project);
    }
  }

  lemma InsertKeepsUniform(s: Store, a: Actor, n: NewItem, session: Session)
    requires Ordered(s) && PointsBack(s) && Uniform(s) && n.id !in s.items
    requires n.kind == Note && IsStandardCheckpoint(n.payload) ==> n.status == Draft
    requires n.supersedes.Some? && IsCheckpoint(s, n.supersedes.value) ==>
               n.kind == Note && IsStandardCheckpoint(n.payload)
    requires n.supersedes.Some? ==> n.supersedes.value in s.items
    ensures Uniform(Inserted(s, a, n, session))
  {
    var t := Inserted(s, a, n, session);
    forall i | i in t.items
      ensures IsCheckpoint(t, i) ==> t.items[i].status == Draft
      ensures t.items[i].supersedes.Some? && IsCheckpoint(t, t.items[i].supersedes.value) ==> IsCheckpoint(t, i)
    {
      if i != n.id && s.items[i].supersedes.Some? {
        TargetExists(s, i);
        assert IsCheckpoint(t, s.items[i].supersedes.value) == IsCheckpoint(s, s.items[i].supersedes.value);
      }
    }
  }

  lemma InsertKeepsLine(s: Store, a: Actor, n: NewItem, session: Session, p: Id)
    requires Ordered(s) && Line(s, p) && n.id !in s.items
    requires n.kind == Note && IsStandardCheckpoint(n.payload) ==>
               var chain := Chain(s, n.project);
               n.supersedes == if chain == [] then None else Some(chain[|chain| - 1])
    ensures Line(Inserted(s, a, n, session), p)
  {
    var t := Inserted(s, a, n, session);
    var chain := Chain(s, p);
    ChainAfterInsert(s, a, n, session, p);
    forall k | 0 <= k < |Chain(t, p)| ensures LinkAt(t.items, Chain(t, p), k) {
      if k < |chain| {
        assert LinkAt(s.items, chain, k);
      }
    }
  }

  lemma InsertKeepsChain(s: Store, lim: Limits, a: Actor, n: NewItem)
    requires ChainInv(s) && CreateItem(s, lim, a, n).Done?
    requires n.standardCheckpoint ==> n.status == Draft
    ensures ChainInv(CreateItem(s, lim, a, n).store)
  {
    var session := Touched(s, a, n.project).value;
    GuardedTarget(s, lim, a, n);
    InsertedIsOrdered(s, a, n, session);
    InsertKeepsUniform(s, a, n, session);
    forall p ensures Line(Inserted(s, a, n, session), p) {
      assert Line(s, p);
      InsertKeepsLine(s, a, n, session, p);
    }
  }

  lemma InsertedIsOrdered(s: Store, a: Actor, n: NewItem, session: Session)
    requires Ordered(s) && PointsBack(s) && n.id !in s.items
    requires n.supersedes.Some? ==> n.supersedes.value in s.items && s.items[n.supersedes.value].project == n.project
    ensures Ordered(Inserted(s, a, n, session)) && PointsBack(Inserted(s, a, n, session))
  {
    var t := Inserted(s, a, n, session);
    assert n.id !in s.order;
    assert t.order[..|s.order|] == s.order;
    forall k: nat | k < |t.order| ensures RowPointsBack(t.items, t.order, k) {
      if k < |s.order| {
        assert RowPointsBack(s.items, s.order, k);
        assert t.order[..k] == s.order[..k] && s.order[k] in s.order;
        assert forall x :: x in s.order[..k] ==> x in s.order;
      }
    }
  }

  lemma RequestKeepsShape(s: Store, lim: Limits, a: Actor, project: Id, target: Target, id: Id)
    ensures SameShape(s, Commit(s, RequestApproval(s, lim, a, project, target, id)))
  {
  }

  lemma DecisionKeepsShape(s: Store, a: Actor, id: Id, approve: bool)
    ensures SameShape(s, Commit(s, DecideApproval(s, a, id, approve)))
  {
    if DecideApproval(s, a, id, approve).Done? {
      var k := FindPending(s.requests, id).value;
      var t := Decided(s, a, k, approve);
      match s.requests[k].target
      case ItemTarget(i) =>
        assert t.items == s.items[i := s.items[i].(status := if approve then Accepted else Rejected)];
      case EvidenceTarget(e) =>
        assert t.items == s.items;
    }
  }

  lemma OtherStepsKeepShape(s: Store, lim: Limits, step: Step)
    requires Creation(step).None?
    ensures SameShape(s, Apply(s, lim, step))
  {
    match step
    case DoRequestApproval(a, p, t, i) => RequestKeepsShape(s, lim, a, p, t, i);
    case DoDecideApproval(a, i, ok) => DecisionKeepsShape(s, a, i, ok);
    case _ => ItemsUntouched(s, lim, step);
  }

  lemma StepKeepsChain(s: Store, lim: Limits, step: Step)
    requires ChainInv(s)
    ensures ChainInv(Apply(s, lim, step))
  {
    match Creation(step)
    case None =>
      OtherStepsKeepShape(s, lim, step);
      SameShapeKeeps(s, Apply(s, lim, step));
    case Some((a, n)) =>
      CreationIsInsertion(s, lim, step);
      if CreateItem(s, lim, a, n).Done? {
        InsertKeepsChain(s, lim, a, n);
      }
  }

  lemma {:induction false} RunKeepsChain(s: Store, lim: Limits, steps: seq<Step>)
    requires ChainInv(s)
    ensures ChainInv(Run(s, lim, steps))
    decreases |steps|
  {
    if steps != [] {
      StepKeepsChain(s, lim, steps[0]);
      RunKeepsChain(Apply(s, lim, steps[0]), lim, steps[1..]);
    }
  }

  /**
   The main result: after any run from an empty database, each project's
   checkpoints are one line with one current end, and no chain of supersedes
   links returns to where it started.
   */
  lemma ReachableCheckpointChain(lim: Limits, steps: seq<Step>, project: Id)
    ensures var s := Run(EMPTY_STORE, lim, steps);
            var chain := Chain(s, project);
            && Distinct(chain)
            && (forall i :: i in chain <==> IsCheckpointOf(s, project, i))
            && CurrentCheckpoints(s, project) == (if chain == [] then [] else [chain[|chain| - 1]])
            && (forall k, j :: 0 <= k < |chain| - 1 ==> (Supersedes(s, j, chain[k]) <==> j == chain[k + 1]))
            && (forall walk :: IsWalk(s, walk) && |walk| > 1 ==>
                  walk[0] != walk[|walk| - 1] && walk[0] in s.items && walk[|walk| - 1] in s.items
                  && s.items[walk[0]].project == s.items[walk[|walk| - 1]].project)
  {
    assert forall p :: Line(EMPTY_STORE, p);
    RunKeepsChain(EMPTY_STORE, lim, steps);
    var s := Run(EMPTY_STORE, lim, steps);
    ChainDistinct(s, project);
    OneCurrentCheckpoint(s, project);
    forall walk | IsWalk(s, walk) && |walk| > 1
      ensures walk[0] != walk[|walk| - 1] && walk[0] in s.items && walk[|walk| - 1] in s.items
      ensures s.items[walk[0]].project == s.items[walk[|walk| - 1]].project
    {
      WalkGoesBack(s, walk);
    }
  }
}
