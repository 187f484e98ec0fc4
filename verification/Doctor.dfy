/**
 The doctor: read-only checks, written independently of the service, that
 report governance anomalies.  In every state the service can reach they find
 none.
 */
module Doctor {
  import opened Wrappers
  import opened Corpus
  import opened Store
  import opened Checkpoints
  import opened Approvals

  datatype CheckpointFinding =
    | NotRequiredArchived
    | NotRequiredEmpty
    | LegacyUnrecognized
    | ZeroCurrent
    | OneCurrent
    | MultipleCurrent

  function Tally<K>(counts: map<K, nat>, k: K): nat {
    if k in counts then counts[k] else 0
  }

  /** A note nothing supersedes, still active, without the checkpoint marker. */
  predicate IsLegacyNote(s: Store, project: Id, i: Id) {
    && i in s.items && s.items[i].kind == Note && s.items[i].project == project
    && !IsStandardCheckpoint(s.items[i].payload)
    && s.items[i].status !in {ItemStatus.Archived, Rejected}
    && !HasAnySuccessor(s, i)
  }

  function LegacyNotes(s: Store, project: Id): seq<Id> {
    Filter(i => IsLegacyNote(s, project, i), s.order)
  }

  function ItemsOf(s: Store, project: Id): seq<Id> {
    Filter(i => i in s.items && s.items[i].project == project, s.order)
  }

  function LegacyIn(s: Store, project: Id, rows: seq<Id>): seq<Id> {
    Filter(i => IsLegacyNote(s, project, i), rows)
  }

  lemma CountsGrow(s: Store, project: Id, rows: seq<Id>, i: Id)
    ensures |CurrentAmong(s, project, rows + [i])|
            == |CurrentAmong(s, project, rows)| + if IsCurrentCheckpoint(s, project, i) then 1 else 0
    ensures |LegacyIn(s, project, rows + [i])|
            == |LegacyIn(s, project, rows)| + if IsLegacyNote(s, project, i) then 1 else 0
  {
    QueriesByRow(s, project, rows, i);
    FilterAppend(j => IsLegacyNote(s, project, j), rows, i);
  }

  /** One pass over the note rows, counting current standard and legacy notes per project. */
  method CountCurrent(s: Store) returns (standard: map<Id, nat>, legacy: map<Id, nat>)
    requires Ordered(s)
    ensures forall p :: Tally(standard, p) == |CurrentCheckpoints(s, p)|
    ensures forall p :: Tally(legacy, p) == |LegacyNotes(s, p)|
  {
    standard, legacy := map[], map[];
    for k := 0 to |s.order|
      invariant forall p :: Tally(standard, p) == |CurrentAmong(s, p, s.order[..k])|
      invariant forall p :: Tally(legacy, p) == |LegacyIn(s, p, s.order[..k])|
    {
      var i := s.order[k];
      assert i in s.items;
      var row := s.items[i];
      assert s.order[..k + 1] == s.order[..k] + [i];
      forall p
        ensures |CurrentAmong(s, p, s.order[..k + 1])|
                == |CurrentAmong(s, p, s.order[..k])| + if IsCurrentCheckpoint(s, p, i) then 1 else 0
        ensures |LegacyIn(s, p, s.order[..k + 1])|
                == |LegacyIn(s, p, s.order[..k])| + if IsLegacyNote(s, p, i) then 1 else 0
      {
        CountsGrow(s, p, s.order[..k], i);
      }
      if row.kind == Note && !HasAnySuccessor(s, i) && row.status !in {ItemStatus.Archived, Rejected} {
        if IsStandardCheckpoint(row.payload) {
          standard := standard[row.project := Tally(standard, row.project) + 1];
        } else {
          legacy := legacy[row.project := Tally(legacy, row.project) + 1];
        }
      }
    }
    assert s.order[..|s.order|] == s.order;
  }

  /** The finding for one project from its status and counts. */
  function Classify(status: ProjectStatus, items: nat, standard: nat, legacy: nat): CheckpointFinding {
    if status == ProjectArchivedStatus then NotRequiredArchived
    else if items == 0 then NotRequiredEmpty
    else if standard == 0 && legacy > 0 then LegacyUnrecognized
    else if standard == 0 then ZeroCurrent
    else if standard == 1 then OneCurrent
    else MultipleCurrent
  }

  method CheckCheckpoints(s: Store, projects: seq<Id>) returns (findings: seq<CheckpointFinding>)
    requires Ordered(s)
    requires forall p :: p in projects ==> p in s.projects
    ensures |findings| == |projects|
    ensures forall k :: 0 <= k < |projects| ==>
      findings[k] == Classify(s.projects[projects[k]], |ItemsOf(s, projects[k])|,
                              |CurrentCheckpoints(s, projects[k])|, |LegacyNotes(s, projects[k])|)
  {
    var standard, legacy := CountCurrent(s);
    findings := [];
    for k := 0 to |projects|
      invariant |findings| == k
      invariant forall j :: 0 <= j < k ==>
        findings[j] == Classify(s.projects[projects[j]], |ItemsOf(s, projects[j])|,
                                |CurrentCheckpoints(s, projects[j])|, |LegacyNotes(s, projects[j])|)
    {
      var p := projects[k];
      findings := findings + [Classify(s.projects[p], |ItemsOf(s, p)|, Tally(standard, p), Tally(legacy, p))];
    }
  }

  /** Items that supersede a standard checkpoint of any project without being one. */
  method CheckCrossKind(s: Store) returns (anomalies: seq<Id>)
    requires Ordered(s)
    ensures forall i :: i in anomalies <==>
      i in s.items && s.items[i].supersedes.Some? && IsCheckpoint(s, s.items[i].supersedes.value) && !IsCheckpoint(s, i)
  {
    anomalies := [];
    for k := 0 to |s.order|
      invariant forall i :: i in anomalies <==>
        i in s.order[..k] && s.items[i].supersedes.Some?
        && IsCheckpoint(s, s.items[i].supersedes.value) && !IsCheckpoint(s, i)
    {
      var i := s.order[k];
      assert s.order[..k + 1] == s.order[..k] + [i];
      if s.items[i].supersedes.Some? && IsCheckpoint(s, s.items[i].supersedes.value) {
        if s.items[i].kind != Note || !IsStandardCheckpoint(s.items[i].payload) {
          anomalies := anomalies + [i];
        }
      }
    }
    assert s.order[..|s.order|] == s.order;
  }

  /** Open requests of a project for a target. */
  function OpenCount(requests: seq<Request>, project: Id, target: Target): nat {
    if requests == [] then 0 else
    var last := requests[|requests| - 1];
    OpenCount(requests[..|requests| - 1], project, target) + (if IsPendingFor(last, project, target) then 1 else 0)
  }

  /** The (project, target) keys with more than one open request. */
  function DuplicateGroups(requests: seq<Request>): set<(Id, Target)> {
    set r | r in requests && OpenCount(requests, r.project, r.target) > 1 :: (r.project, r.target)
  }

  lemma {:induction false} OpenCountZero(requests: seq<Request>, project: Id, target: Target)
    ensures OpenCount(requests, project, target) == 0 <==> forall r :: r in requests ==> !IsPendingFor(r, project, target)
  {
    if requests != [] {
      var init, last := requests[..|requests| - 1], requests[|requests| - 1];
      OpenCountZero(init, project, target);
      assert forall r :: r in requests <==> r in init || r == last;
    }
  }

  /** Counts open requests per key in one pass, then the keys counted twice or more. */
  method CheckApprovals(requests: seq<Request>) returns (duplicateGroups: nat)
    ensures duplicateGroups == |DuplicateGroups(requests)|
  {
    var keys: map<(Id, Target), nat> := map[];
    for k := 0 to |requests|
      invariant forall p, t :: Tally(keys, (p, t)) == OpenCount(requests[..k], p, t)
    {
      assert requests[..k + 1][..k] == requests[..k];
      var r := requests[k];
      if r.status == Pending {
        keys := keys[(r.project, r.target) := Tally(keys, (r.project, r.target)) + 1];
      }
    }
    assert requests[..|requests|] == requests;
    var repeated := set key | key in keys && keys[key] > 1;
    duplicateGroups := |repeated|;
    forall key: (Id, Target) ensures key in repeated <==> key in DuplicateGroups(requests) {
      var p, t := key.0, key.1;
      assert key == (p, t);
      assert Tally(keys, (p, t)) == OpenCount(requests, p, t);
      OpenCountZero(requests, p, t);
      if key in repeated {
        var r :| r in requests && IsPendingFor(r, p, t);
        assert (r.project, r.target) == key;
      }
    }
    assert repeated == DuplicateGroups(requests);
  }

  lemma {:induction false} AtMostOneOpen(requests: seq<Request>, project: Id, target: Target)
    requires forall j, k :: 0 <= j < k < |requests| ==>
               !(IsPendingFor(requests[j], project, target) && IsPendingFor(requests[k], project, target))
    ensures OpenCount(requests, project, target) <= 1
  {
    if requests != [] {
      var init, last := requests[..|requests| - 1], requests[|requests| - 1];
      AtMostOneOpen(init, project, target);
      if IsPendingFor(last, project, target) {
        forall r | r in init ensures !IsPendingFor(r, project, target) {
          var j :| 0 <= j < |init| && init[j] == r;
          assert requests[j] == r;
        }
        OpenCountZero(init, project, target);
      }
    }
  }

  /**
   No reachable state shows the doctor a second current checkpoint, a cross-kind
   successor or a duplicate open request, whoever ran which steps.
   */
  lemma DoctorFindsNothing(lim: Limits, steps: seq<Step>, project: Id)
    ensures var s := Run(EMPTY_STORE, lim, steps);
            && Ordered(s)
            && (forall status, items: nat, legacy: nat ::
                  Classify(status, items, |CurrentCheckpoints(s, project)|, legacy) != MultipleCurrent)
            && (forall i | i in s.items && s.items[i].supersedes.Some? && IsCheckpoint(s, s.items[i].supersedes.value) ::
                  IsCheckpoint(s, i))
            && DuplicateGroups(s.requests) == {}
  {
    var s := Run(EMPTY_STORE, lim, steps);
    assert forall p :: Line(EMPTY_STORE, p);
    RunKeepsChain(EMPTY_STORE, lim, steps);
    OneCurrentCheckpoint(s, project);
    RunKeepsOneOpen(EMPTY_STORE, lim, steps);
    forall r | r in s.requests ensures OpenCount(s.requests, r.project, r.target) <= 1 {
      AtMostOneOpen(s.requests, r.project, r.target);
    }
  }

  lemma QueriesAreEmptyIff(s: Store, project: Id)
    requires Ordered(s)
    ensures ItemsOf(s, project) == [] <==> forall i :: i in s.items ==> s.items[i].project != project
    ensures LegacyNotes(s, project) == [] <==> forall i :: i in s.items ==> !IsLegacyNote(s, project, i)
    ensures Chain(s, project) == [] <==> forall i :: i in s.items ==> !IsCheckpointOf(s, project, i)
  {
    FilterEmptyIff(i => i in s.items && s.items[i].project == project, s.order);
    FilterEmptyIff(i => IsLegacyNote(s, project, i), s.order);
    FilterEmptyIff(i => IsCheckpointOf(s, project, i), s.order);
    assert forall i :: i in s.items <==> i in s.order;
  }

  /** What the doctor says of each project of a reachable state. */
  lemma DoctorSaysIff(lim: Limits, steps: seq<Step>, project: Id)
    requires project in Run(EMPTY_STORE, lim, steps).projects
    ensures var s := Run(EMPTY_STORE, lim, steps);
            var finding := Classify(s.projects[project], |ItemsOf(s, project)|, |CurrentCheckpoints(s, project)|, |LegacyNotes(s, project)|);
            var archived := s.projects[project] == ProjectArchivedStatus;
            var populated := exists i :: i in s.items && s.items[i].project == project;
            var checked := exists i :: i in s.items && IsCheckpointOf(s, project, i);
            var legacy := exists i :: i in s.items && IsLegacyNote(s, project, i);
            && (finding == NotRequiredArchived <==> archived)
            && (finding == NotRequiredEmpty <==> !archived && !populated)
            && (finding == OneCurrent <==> !archived && checked)
            && (finding == LegacyUnrecognized <==> !archived && !checked && legacy)
            && (finding == ZeroCurrent <==> !archived && populated && !checked && !legacy)
  {
    var s := Run(EMPTY_STORE, lim, steps);
    assert forall p :: Line(EMPTY_STORE, p);
    RunKeepsChain(EMPTY_STORE, lim, steps);
    OneCurrentCheckpoint(s, project);
    QueriesAreEmptyIff(s, project);
  }
}
