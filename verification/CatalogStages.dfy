/**
 The stages of a catalog run as functions of the whole list of records, and what
 they have in common: none depends on the change state or, if the ranks are
 distinct, on the order of the records.
 */
module CatalogStages {
  import opened Wrappers
  import opened Sorting
  import opened Catalog

  // ----- the same catalog, in another order -----

  ghost predicate KeysDiffer(rs: seq<Record>) {
    forall i, j :: 0 <= i < j < |rs| ==> rs[i].key != rs[j].key
  }

  ghost predicate Has(rs: seq<Record>, r: Record) {
    exists i :: 0 <= i < |rs| && SameRecord(rs[i], r)
  }

  /** The same files with the same records, apart from change states and order. */
  ghost predicate Agree(a: seq<Record>, b: seq<Record>) {
    && KeysDiffer(a) && KeysDiffer(b)
    && (forall i :: 0 <= i < |a| ==> Has(b, a[i])) && (forall j :: 0 <= j < |b| ==> Has(a, b[j]))
  }

  // ----- stages -----

  /** A member that has a partner of the same kind among the other records. */
  ghost predicate HasPartner<K(!new)>(rs: seq<Record>, member: Record -> bool, partner: Record -> bool, kind: Record -> K, i: nat)
    requires i < |rs|
  {
    member(rs[i]) && exists j :: 0 <= j < |rs| && j != i && partner(rs[j]) && kind(rs[j]) == kind(rs[i])
  }

  /** The stage that changes every record that has a partner. */
  ghost function Changed<K(!new)>(rs: seq<Record>, member: Record -> bool, partner: Record -> bool, kind: Record -> K,
                                  change: Record -> Record): (r: seq<Record>)
    ensures |r| == |rs|
    ensures forall i :: 0 <= i < |rs| ==> r[i] == if HasPartner(rs, member, partner, kind, i) then change(rs[i]) else rs[i]
  {
    seq(|rs|, i requires 0 <= i < |rs| => if HasPartner(rs, member, partner, kind, i) then change(rs[i]) else rs[i])
  }

  /** The positions of the records that satisfy a test, in order. */
  function Positions(rs: seq<Record>, test: Record -> bool): (r: seq<nat>)
    ensures forall k :: 0 <= k < |r| ==> r[k] < |rs|
    ensures forall i :: i in r <==> 0 <= i < |rs| && test(rs[i])
    ensures Distinct(r)
  {
    if rs == [] then []
    else
      var init := Positions(rs[..|rs| - 1], test);
      if test(rs[|rs| - 1]) then init + [|rs| - 1] else init
  }

  function RankAt(rs: seq<Record>, rank: Record -> int): nat -> int {
    (i: nat) => if i < |rs| then rank(rs[i]) else 0
  }

  /** The positions of the records that pass a test, sorted by rank and cut to a limit. */
  function Best(rs: seq<Record>, test: Record -> bool, rank: Record -> int, limit: nat): seq<nat> {
    FirstBy(RankAt(rs, rank), Positions(rs, test), limit)
  }

  function FirstBy(rank: nat -> int, positions: seq<nat>, limit: nat): (r: seq<nat>)
    ensures |r| <= limit
  {
    var sorted := SortBy(rank, positions);
    sorted[..Min(limit, |sorted|)]
  }

  /** The stage that changes the best of the records that pass a test. */
  function BestChanged(rs: seq<Record>, test: Record -> bool, rank: Record -> int, limit: nat, change: Record -> Record): (r: seq<Record>)
    ensures |r| == |rs|
    ensures forall i :: 0 <= i < |rs| ==> r[i] == if i in Best(rs, test, rank, limit) then change(rs[i]) else rs[i]
  {
    seq(|rs|, i requires 0 <= i < |rs| => if i in Best(rs, test, rank, limit) then change(rs[i]) else rs[i])
  }

  // ----- what the best are -----

  /** A limited choice by rank: nothing outside it has a smaller rank than something in it. */
  ghost predicate IsBest(rank: nat -> int, positions: seq<nat>, limit: nat, chosen: seq<nat>) {
    && |chosen| == Min(limit, |positions|) && Distinct(chosen) && Ranked(rank, chosen)
    && (forall i :: i in chosen ==> i in positions)
    && (forall i, j :: i in chosen && j in positions && j !in chosen ==> rank(i) <= rank(j))
  }

  lemma BestIsBest(rs: seq<Record>, test: Record -> bool, rank: Record -> int, limit: nat)
    ensures IsBest(RankAt(rs, rank), Positions(rs, test), limit, Best(rs, test, rank, limit))
  {
    FirstAreBest(RankAt(rs, rank), Positions(rs, test), limit);
  }

  lemma FirstAreBest(rank: nat -> int, positions: seq<nat>, limit: nat)
    requires Distinct(positions)
    ensures IsBest(rank, positions, limit, FirstBy(rank, positions, limit))
  {
    var sorted, n := SortBy(rank, positions), Min(limit, |positions|);
    SortByKeeps(rank, positions);
    PermutationIsDistinct(positions, sorted);
    forall i ensures i in sorted <==> i in positions {
      assert i in multiset(sorted) <==> i in multiset(positions);
    }
    forall i, j | i in sorted[..n] && j in sorted && j !in sorted[..n] ensures rank(i) <= rank(j) {
      PrefixIsBest(rank, sorted, n, i, j);
    }
  }

  lemma PrefixIsBest(rank: nat -> int, sorted: seq<nat>, n: nat, i: nat, j: nat)
    requires Ranked(rank, sorted) && n <= |sorted| && i in sorted[..n] && j in sorted && j !in sorted[..n]
    ensures rank(i) <= rank(j)
  {
    var a :| 0 <= a < n && sorted[..n][a] == i;
    var b :| 0 <= b < |sorted| && sorted[b] == j;
    assert forall k :: 0 <= k < n ==> sorted[..n][k] == sorted[k];
    assert n <= b;
  }

  // ----- stages respect agreement -----

  /** The test does not look at the change state. */
  ghost predicate Timeless<K(!new)>(look: Record -> K) {
    forall r, s :: SameRecord(r, s) ==> look(r) == look(s)
  }

  /** The change does not look at the change state, and keeps the key. */
  ghost predicate TimelessChange(change: Record -> Record) {
    && (forall r :: change(r).key == r.key)
    && forall r, s :: SameRecord(r, s) ==> SameRecord(change(r), change(s))
  }

  lemma PartnerAgrees<K(!new)>(a: seq<Record>, b: seq<Record>, member: Record -> bool, partner: Record -> bool,
                               kind: Record -> K, i: nat, j: nat)
    requires Agree(a, b) && Timeless(member) && Timeless(partner) && Timeless(kind)
    requires i < |a| && j < |b| && SameRecord(a[i], b[j]) && HasPartner(a, member, partner, kind, i)
    ensures HasPartner(b, member, partner, kind, j)
  {
    var k :| 0 <= k < |a| && k != i && partner(a[k]) && kind(a[k]) == kind(a[i]);
    assert Has(b, a[k]);
    var m :| 0 <= m < |b| && SameRecord(b[m], a[k]);
    assert a[k].key != a[i].key;
    assert m != j && partner(b[m]) && kind(b[m]) == kind(b[j]);
  }

  lemma StageAgrees(a: seq<Record>, b: seq<Record>, nextA: seq<Record>, nextB: seq<Record>)
    requires Agree(a, b) && |nextA| == |a| && |nextB| == |b|
    requires forall i :: 0 <= i < |a| ==> nextA[i].key == a[i].key
    requires forall j :: 0 <= j < |b| ==> nextB[j].key == b[j].key
    requires forall i, j | 0 <= i < |a| && 0 <= j < |b| :: SameRecord(a[i], b[j]) ==> SameRecord(nextA[i], nextB[j])
    ensures Agree(nextA, nextB)
  {
    forall i | 0 <= i < |nextA| ensures Has(nextB, nextA[i]) {
      assert Has(b, a[i]);
      var j :| 0 <= j < |b| && SameRecord(b[j], a[i]);
      assert SameRecord(nextB[j], nextA[i]);
    }
    forall j | 0 <= j < |nextB| ensures Has(nextA, nextB[j]) {
      assert Has(a, b[j]);
      var i :| 0 <= i < |a| && SameRecord(a[i], b[j]);
      assert SameRecord(nextA[i], nextB[j]);
    }
  }

  lemma ChangedAgree<K(!new)>(a: seq<Record>, b: seq<Record>, member: Record -> bool, partner: Record -> bool,
                              kind: Record -> K, change: Record -> Record)
    requires Agree(a, b) && Timeless(member) && Timeless(partner) && Timeless(kind) && TimelessChange(change)
    ensures Agree(Changed(a, member, partner, kind, change), Changed(b, member, partner, kind, change))
  {
    var nextA, nextB := Changed(a, member, partner, kind, change), Changed(b, member, partner, kind, change);
    forall i, j | 0 <= i < |a| && 0 <= j < |b| && SameRecord(a[i], b[j]) ensures SameRecord(nextA[i], nextB[j]) {
      if HasPartner(a, member, partner, kind, i) {
        PartnerAgrees(a, b, member, partner, kind, i, j);
      }
      AgreeIsSymmetric(a, b);
      if HasPartner(b, member, partner, kind, j) {
        PartnerAgrees(b, a, member, partner, kind, j, i);
      }
    }
    StageAgrees(a, b, nextA, nextB);
  }

  lemma AgreeIsSymmetric(a: seq<Record>, b: seq<Record>)
    requires Agree(a, b)
    ensures Agree(b, a)
  {
  }

  // ----- limited choices respect agreement -----

  /** No two records that pass the test have the same rank. */
  ghost predicate RanksDiffer(rs: seq<Record>, test: Record -> bool, rank: Record -> int) {
    forall i, j :: 0 <= i < j < |rs| && test(rs[i]) && test(rs[j]) ==> rank(rs[i]) != rank(rs[j])
  }

  ghost function KeysAt(rs: seq<Record>, positions: seq<nat>): (keys: set<Key>)
    requires forall i :: i in positions ==> i < |rs|
  {
    set i | i in positions :: rs[i].key
  }

  lemma {:induction false} KeysCounted(rs: seq<Record>, positions: seq<nat>)
    requires KeysDiffer(rs) && Distinct(positions) && forall i :: i in positions ==> i < |rs|
    ensures |KeysAt(rs, positions)| == |positions|
  {
    if positions != [] {
      var init, last := positions[..|positions| - 1], positions[|positions| - 1];
      assert positions == init + [last];
      KeyAdded(rs, init, last);
      KeysCounted(rs, init);
    }
  }

  lemma KeyAdded(rs: seq<Record>, init: seq<nat>, last: nat)
    requires KeysDiffer(rs) && Distinct(init + [last]) && forall i :: i in init + [last] ==> i < |rs|
    ensures Distinct(init) && forall i :: i in init ==> i < |rs|
    ensures last < |rs| && KeysAt(rs, init + [last]) == KeysAt(rs, init) + {rs[last].key}
    ensures rs[last].key !in KeysAt(rs, init)
  {
    var all := init + [last];
    assert all[|init|] == last && last in all;
    forall k | 0 <= k < |init| ensures all[k] == init[k] && init[k] in all && init[k] != last {
      assert all[k] == init[k];
    }
    assert forall i, j :: 0 <= i < j < |init| ==> all[i] != all[j];
    assert forall x :: x in all <==> x in init || x == last;
    forall i | i in init ensures rs[i].key != rs[last].key {
      assert i in all && i != last;
    }
  }

  lemma PassingKeysAgree(a: seq<Record>, b: seq<Record>, test: Record -> bool)
    requires Agree(a, b) && Timeless(test)
    ensures KeysAt(a, Positions(a, test)) <= KeysAt(b, Positions(b, test))
  {
    forall key | key in KeysAt(a, Positions(a, test)) ensures key in KeysAt(b, Positions(b, test)) {
      var i :| i in Positions(a, test) && a[i].key == key;
      assert Has(b, a[i]);
      var j :| 0 <= j < |b| && SameRecord(b[j], a[i]);
      assert j in Positions(b, test);
    }
  }

  lemma SubsetIsSmaller<T>(a: set<T>, b: set<T>)
    requires a <= b
    ensures |a| <= |b|
  {
    assert b == a + (b - a);
  }

  lemma SameNumberPasses(a: seq<Record>, b: seq<Record>, test: Record -> bool)
    requires Agree(a, b) && Timeless(test)
    ensures |Positions(a, test)| == |Positions(b, test)|
  {
    KeysCounted(a, Positions(a, test));
    KeysCounted(b, Positions(b, test));
    PassingKeysAgree(a, b, test);
    PassingKeysAgree(b, a, test);
    SubsetIsSmaller(KeysAt(a, Positions(a, test)), KeysAt(b, Positions(b, test)));
    SubsetIsSmaller(KeysAt(b, Positions(b, test)), KeysAt(a, Positions(a, test)));
  }

  /** A key chosen from one list and not from the other leaves one that is chosen the other way round. */
  lemma Exchanged<T>(a: set<T>, b: set<T>, x: T) returns (y: T)
    requires |a| == |b| && x in a && x !in b
    ensures y in b && y !in a
  {
    if b <= a {
      assert b <= a - {x};
      SubsetIsSmaller(b, a - {x});
    }
    y :| y in b && y !in a;
  }

  /** With distinct ranks, which files are chosen does not depend on the order. */
  lemma ChosenAgree(a: seq<Record>, b: seq<Record>, test: Record -> bool, rank: Record -> int, limit: nat, i: nat, j: nat)
    requires Agree(a, b) && Timeless(test) && Timeless(rank) && RanksDiffer(a, test, rank)
    requires i < |a| && j < |b| && SameRecord(a[i], b[j]) && i in Best(a, test, rank, limit)
    ensures j in Best(b, test, rank, limit)
  {
    var chosenA, chosenB := Best(a, test, rank, limit), Best(b, test, rank, limit);
    BestIsBest(a, test, rank, limit);
    BestIsBest(b, test, rank, limit);
    SameNumberPasses(a, b, test);
    KeysCounted(a, chosenA);
    KeysCounted(b, chosenB);
    if j !in chosenB {
      NotChosen(a, b, test, rank, Positions(a, test), Positions(b, test), limit, chosenA, chosenB, i, j);
    }
  }

  ghost predicate Passing(rs: seq<Record>, test: Record -> bool, positions: seq<nat>) {
    forall i :: i in positions <==> 0 <= i < |rs| && test(rs[i])
  }

  lemma NotChosen(a: seq<Record>, b: seq<Record>, test: Record -> bool, rank: Record -> int,
                  passA: seq<nat>, passB: seq<nat>, limit: nat, chosenA: seq<nat>, chosenB: seq<nat>, i: nat, j: nat)
    requires Agree(a, b) && Timeless(test) && Timeless(rank) && RanksDiffer(a, test, rank)
    requires Passing(a, test, passA) && Passing(b, test, passB)
    requires IsBest(RankAt(a, rank), passA, limit, chosenA) && IsBest(RankAt(b, rank), passB, limit, chosenB)
    requires |KeysAt(a, chosenA)| == |KeysAt(b, chosenB)|
    requires i < |a| && j < |b| && SameRecord(a[i], b[j]) && i in chosenA
    ensures j in chosenB
  {
    if j !in chosenB {
      var k, m := OneOutOneIn(a, b, chosenA, chosenB, i, j);
      assert test(a[i]) && test(b[j]) && test(b[m]);
      SameRank(a, b, test, rank, passA, passB, limit, chosenA, chosenB, i, j, k, m);
    }
  }

  lemma OneOutOneIn(a: seq<Record>, b: seq<Record>, chosenA: seq<nat>, chosenB: seq<nat>, i: nat, j: nat) returns (k: nat, m: nat)
    requires Agree(a, b) && (forall x :: x in chosenA ==> x < |a|) && (forall x :: x in chosenB ==> x < |b|)
    requires |KeysAt(a, chosenA)| == |KeysAt(b, chosenB)|
    requires i < |a| && j < |b| && SameRecord(a[i], b[j]) && i in chosenA && j !in chosenB
    ensures m in chosenB && m < |b| && k < |a| && k !in chosenA && SameRecord(a[k], b[m])
  {
    forall x | x in chosenB ensures b[x].key != b[j].key {
      assert x < |b| && x != j;
    }
    var key := Exchanged(KeysAt(a, chosenA), KeysAt(b, chosenB), a[i].key);
    m :| m in chosenB && b[m].key == key;
    assert Has(a, b[m]);
    k :| 0 <= k < |a| && SameRecord(a[k], b[m]);
    assert forall x :: x in chosenA ==> a[x].key in KeysAt(a, chosenA);
  }

  lemma SameRank(a: seq<Record>, b: seq<Record>, test: Record -> bool, rank: Record -> int, passA: seq<nat>, passB: seq<nat>,
                 limit: nat, chosenA: seq<nat>, chosenB: seq<nat>, i: nat, j: nat, k: nat, m: nat)
    requires Timeless(test) && Timeless(rank) && Passing(a, test, passA) && Passing(b, test, passB)
    requires IsBest(RankAt(a, rank), passA, limit, chosenA) && IsBest(RankAt(b, rank), passB, limit, chosenB)
    requires i < |a| && k < |a| && j < |b| && m < |b| && SameRecord(a[i], b[j]) && SameRecord(a[k], b[m])
    requires i in chosenA && k !in chosenA && m in chosenB && j !in chosenB && test(a[i]) && test(b[m])
    ensures i != k && test(a[k]) && rank(a[i]) == rank(a[k])
  {
    assert k in passA && j in passB;
    assert RankAt(a, rank)(i) <= RankAt(a, rank)(k) && RankAt(b, rank)(m) <= RankAt(b, rank)(j);
  }

  lemma BestChangedAgree(a: seq<Record>, b: seq<Record>, test: Record -> bool, rank: Record -> int, limit: nat,
                         change: Record -> Record)
    requires Agree(a, b) && Timeless(test) && Timeless(rank) && TimelessChange(change)
    requires RanksDiffer(a, test, rank) && RanksDiffer(b, test, rank)
    ensures Agree(BestChanged(a, test, rank, limit, change), BestChanged(b, test, rank, limit, change))
  {
    var nextA, nextB := BestChanged(a, test, rank, limit, change), BestChanged(b, test, rank, limit, change);
    forall i, j | 0 <= i < |a| && 0 <= j < |b| && SameRecord(a[i], b[j]) ensures SameRecord(nextA[i], nextB[j]) {
      if i in Best(a, test, rank, limit) {
        ChosenAgree(a, b, test, rank, limit, i, j);
      }
      if j in Best(b, test, rank, limit) {
        ChosenAgree(b, a, test, rank, limit, j, i);
      }
    }
    StageAgrees(a, b, nextA, nextB);
  }

  // ----- the same catalog in the same order -----

  lemma ChangedSame<K(!new)>(a: seq<Record>, b: seq<Record>, member: Record -> bool, partner: Record -> bool,
                             kind: Record -> K, change: Record -> Record)
    requires SameRecords(a, b) && Timeless(member) && Timeless(partner) && Timeless(kind) && TimelessChange(change)
    ensures SameRecords(Changed(a, member, partner, kind, change), Changed(b, member, partner, kind, change))
  {
    forall i | 0 <= i < |a| ensures HasPartner(a, member, partner, kind, i) <==> HasPartner(b, member, partner, kind, i) {
      if HasPartner(a, member, partner, kind, i) {
        var j :| 0 <= j < |a| && j != i && partner(a[j]) && kind(a[j]) == kind(a[i]);
        assert SameRecord(a[j], b[j]) && partner(b[j]);
      }
      if HasPartner(b, member, partner, kind, i) {
        var j :| 0 <= j < |b| && j != i && partner(b[j]) && kind(b[j]) == kind(b[i]);
        assert SameRecord(a[j], b[j]) && partner(a[j]);
      }
    }
  }

  lemma {:induction false} PositionsSame(a: seq<Record>, b: seq<Record>, test: Record -> bool)
    requires |a| == |b| && forall i :: 0 <= i < |a| ==> test(a[i]) == test(b[i])
    ensures Positions(a, test) == Positions(b, test)
  {
    if a != [] {
      PositionsSame(a[..|a| - 1], b[..|b| - 1], test);
    }
  }

  /** In the same order the same positions are chosen, ranks distinct or not. */
  lemma BestSame(a: seq<Record>, b: seq<Record>, test: Record -> bool, rank: Record -> int, limit: nat)
    requires SameRecords(a, b) && Timeless(test) && Timeless(rank)
    ensures Best(a, test, rank, limit) == Best(b, test, rank, limit)
  {
    PositionsSame(a, b, test);
    SortCongruence(RankAt(a, rank), RankAt(b, rank), Positions(a, test));
  }

  lemma BestChangedSame(a: seq<Record>, b: seq<Record>, test: Record -> bool, rank: Record -> int, limit: nat,
                        change: Record -> Record)
    requires SameRecords(a, b) && Timeless(test) && Timeless(rank) && TimelessChange(change)
    ensures SameRecords(BestChanged(a, test, rank, limit, change), BestChanged(b, test, rank, limit, change))
  {
    BestSame(a, b, test, rank, limit);
  }
}
