/**
 The stratified sample of catalog records: one record of each stratum in turn,
 until the limit is reached or every stratum is exhausted.
 */
module Sampling {
  import opened Grouping
  import opened Wrappers
  import opened Sorting

  // ----- what is taken -----

  /** A count for each of the groups, and no larger than it. */
  ghost predicate Counts<T>(groups: seq<seq<T>>, counts: seq<nat>) {
    |counts| == |groups| && forall g :: 0 <= g < |groups| ==> counts[g] <= |groups[g]|
  }

  /** The first counts[g] records of each of the first `k` groups. */
  ghost function Taken<T>(groups: seq<seq<T>>, counts: seq<nat>, k: nat): multiset<T>
    requires Counts(groups, counts) && k <= |groups|
  {
    if k == 0 then multiset{}
    else Taken(groups, counts, k - 1) + multiset(groups[k - 1][..counts[k - 1]])
  }

  function Sum(counts: seq<nat>, k: nat): nat
    requires k <= |counts|
  {
    if k == 0 then 0 else Sum(counts, k - 1) + counts[k - 1]
  }

  function Sizes<T>(groups: seq<seq<T>>): (r: seq<nat>)
    ensures |r| == |groups| && forall g :: 0 <= g < |groups| ==> r[g] == |groups[g]|
  {
    seq(|groups|, g requires 0 <= g < |groups| => |groups[g]|)
  }

  /** No group is ahead of another by more than one record, unless the other is exhausted. */
  ghost predicate Fair<T>(groups: seq<seq<T>>, counts: seq<nat>) {
    && Counts(groups, counts)
    && forall g, h :: 0 <= g < |groups| && 0 <= h < |groups| ==> counts[h] <= counts[g] + 1 || counts[g] == |groups[g]|
  }

  lemma {:induction false} SumGrows(a: seq<nat>, b: seq<nat>, k: nat)
    requires |a| == |b| && k <= |a| && forall g :: 0 <= g < |a| ==> a[g] <= b[g]
    ensures Sum(a, k) <= Sum(b, k)
  {
    if k > 0 {
      SumGrows(a, b, k - 1);
    }
  }

  lemma {:induction false} SumUpdate(counts: seq<nat>, g: nat, k: nat)
    requires g < |counts| && k <= |counts|
    ensures Sum(counts[g := counts[g] + 1], k) == Sum(counts, k) + if g < k then 1 else 0
  {
    if k > 0 {
      SumUpdate(counts, g, k - 1);
    }
  }

  lemma TakeNext<T>(group: seq<T>, n: nat)
    requires n < |group|
    ensures multiset(group[..n + 1]) == multiset(group[..n]) + multiset{group[n]}
  {
    assert group[..n + 1] == group[..n] + [group[n]];
  }

  lemma {:induction false} TakenUpdate<T>(groups: seq<seq<T>>, counts: seq<nat>, g: nat, after: seq<nat>, k: nat)
    requires Counts(groups, counts) && Counts(groups, after) && g < |groups| && counts[g] < |groups[g]| && k <= |groups|
    requires after == counts[g := counts[g] + 1]
    ensures Taken(groups, after, k)
            == Taken(groups, counts, k) + if g < k then multiset{groups[g][counts[g]]} else multiset{}
  {
    if k > 0 {
      TakenUpdate(groups, counts, g, after, k - 1);
      if g == k - 1 {
        TakeNext(groups[g], counts[g]);
      } else {
        assert after[k - 1] == counts[k - 1];
      }
    }
  }

  lemma {:induction false} NothingTaken<T>(groups: seq<seq<T>>, counts: seq<nat>, k: nat)
    requires Counts(groups, counts) && k <= |groups| && forall g :: 0 <= g < |groups| ==> counts[g] == 0
    ensures Taken(groups, counts, k) == multiset{} && Sum(counts, k) == 0
  {
    if k > 0 {
      NothingTaken(groups, counts, k - 1);
    }
  }

  /** The sample is what the counts say. */
  ghost predicate Holds<T>(groups: seq<seq<T>>, counts: seq<nat>, sampled: seq<T>) {
    && Counts(groups, counts)
    && multiset(sampled) == Taken(groups, counts, |groups|)
    && |sampled| == Sum(counts, |groups|) <= Sum(Sizes(groups), |groups|)
  }

  // ----- the rounds -----

  /** Where the round-robin stands: groups before `j` have had their turn of round `index`. */
  ghost predicate InRound<T>(groups: seq<seq<T>>, counts: seq<nat>, index: nat, j: nat) {
    |counts| == |groups|
    && forall g :: 0 <= g < |groups| ==> counts[g] == Min(|groups[g]|, if g < j then index + 1 else index)
  }

  /** What has been dealt when the groups before `j` have had their turn of round `index`. */
  function Dealt<T>(groups: seq<seq<T>>, index: nat, j: nat): seq<T>
    requires j <= |groups|
    decreases index, j
  {
    if j > 0 then
      Dealt(groups, index, j - 1) + if index < |groups[j - 1]| then [groups[j - 1][index]] else []
    else if index > 0 then Dealt(groups, index - 1, |groups|)
    else []
  }

  function Longest<T>(groups: seq<seq<T>>): (n: nat)
    ensures forall g :: 0 <= g < |groups| ==> |groups[g]| <= n
  {
    if groups == [] then 0 else
    var before, last := Longest(groups[..|groups| - 1]), groups[|groups| - 1];
    assert forall g :: 0 <= g < |groups| - 1 ==> groups[g] == groups[..|groups| - 1][g];
    if |last| > before then |last| else before
  }

  /** All the groups, dealt round by round: the first of each, the second of each, and so on. */
  function Interleaved<T>(groups: seq<seq<T>>): seq<T> {
    Dealt(groups, Longest(groups), 0)
  }

  lemma {:induction false} DealtGrows<T>(groups: seq<seq<T>>, index: nat, j: nat, rounds: nat)
    requires j <= |groups| && index < rounds
    ensures Dealt(groups, index, j) <= Dealt(groups, rounds, 0)
    decreases rounds - index, |groups| - j
  {
    if j < |groups| {
      DealtGrows(groups, index, j + 1, rounds);
    } else if index + 1 < rounds {
      DealtGrows(groups, index + 1, 0, rounds);
    }
  }

  lemma {:induction false} NothingMoreDealt<T>(groups: seq<seq<T>>, index: nat, j: nat)
    requires j <= |groups| && Longest(groups) <= index
    ensures Dealt(groups, index, j) == Interleaved(groups)
    decreases index, j
  {
    if j > 0 {
      NothingMoreDealt(groups, index, j - 1);
    } else if index > Longest(groups) {
      NothingMoreDealt(groups, index - 1, |groups|);
    }
  }

  lemma DealtIsPrefix<T>(groups: seq<seq<T>>, index: nat, j: nat)
    requires j <= |groups|
    ensures Dealt(groups, index, j) <= Interleaved(groups)
  {
    if index < Longest(groups) {
      DealtGrows(groups, index, j, Longest(groups));
    } else {
      NothingMoreDealt(groups, index, j);
    }
  }

  method RoundRobin<T>(groups: seq<seq<T>>, limit: nat) returns (sampled: seq<T>, ghost counts: seq<nat>)
    ensures Fair(groups, counts) && Holds(groups, counts, sampled)
    ensures sampled <= Interleaved(groups)
    ensures |sampled| == Min(limit, Sum(Sizes(groups), |groups|))
  {
    sampled, counts := [], seq(|groups|, g => 0);
    NothingTaken(groups, counts, |groups|);
    SumGrows(counts, Sizes(groups), |groups|);
    var index, added := 0, true;
    while |sampled| < limit && added
      invariant Holds(groups, counts, sampled) && |sampled| <= limit
      invariant InRound(groups, counts, index, 0) || (|sampled| == limit && Fair(groups, counts))
      invariant if |sampled| < limit then sampled == Dealt(groups, index, 0) else sampled <= Interleaved(groups)
      invariant !added ==> |sampled| == Sum(Sizes(groups), |groups|)
      decreases limit - |sampled|, added
    {
      sampled, counts, added := Round(groups, limit, index, sampled, counts);
      index := index + 1;
    }
    DealtIsPrefix(groups, index, 0);
  }

  /** A turn takes the next record of its group, and stays fair. */
  lemma TakeTurn<T>(groups: seq<seq<T>>, counts: seq<nat>, index: nat, j: nat, sampled: seq<T>)
    requires InRound(groups, counts, index, j) && Holds(groups, counts, sampled) && j < |groups| && index < |groups[j]|
    ensures var after := counts[j := index + 1];
            InRound(groups, after, index, j + 1) && Fair(groups, after)
            && Holds(groups, after, sampled + [groups[j][index]])
  {
    var after := counts[j := index + 1];
    TakenUpdate(groups, counts, j, after, |groups|);
    SumUpdate(counts, j, |groups|);
    SumGrows(after, Sizes(groups), |groups|);
  }

  lemma RoundEnds<T>(groups: seq<seq<T>>, counts: seq<nat>, index: nat, sampled: seq<T>)
    requires InRound(groups, counts, index, |groups|) && Holds(groups, counts, sampled)
    requires sampled == Dealt(groups, index, |groups|)
    ensures InRound(groups, counts, index + 1, 0) && sampled == Dealt(groups, index + 1, 0)
    ensures Over(groups, index, |groups|) ==> |sampled| == Sum(Sizes(groups), |groups|)
  {
    assert Over(groups, index, |groups|) ==> counts == Sizes(groups);
  }

  /** The first `j` groups have no record for this round. */
  ghost predicate Over<T>(groups: seq<seq<T>>, index: nat, j: nat)
    requires j <= |groups|
  {
    forall g :: 0 <= g < j ==> |groups[g]| <= index
  }

  /** The turn of group `j`: its record number `index`, if it has that many. */
  method Turn<T>(groups: seq<seq<T>>, index: nat, j: nat, before: seq<T>, ghost taken: seq<nat>)
    returns (sampled: seq<T>, ghost counts: seq<nat>, took: bool)
    requires j < |groups| && InRound(groups, taken, index, j) && Holds(groups, taken, before)
    requires before == Dealt(groups, index, j)
    ensures InRound(groups, counts, index, j + 1) && Holds(groups, counts, sampled)
    ensures sampled == Dealt(groups, index, j + 1)
    ensures took <==> index < |groups[j]|
    ensures if took then |sampled| == |before| + 1 && Fair(groups, counts) else sampled == before
  {
    sampled, counts, took := before, taken, false;
    if index < |groups[j]| {
      TakeTurn(groups, counts, index, j, sampled);
      sampled, took := sampled + [groups[j][index]], true;
      counts := counts[j := index + 1];
    }
  }

  /** One round: a record of each group that has one left, until the limit is reached. */
  method Round<T>(groups: seq<seq<T>>, limit: nat, index: nat, before: seq<T>, ghost taken: seq<nat>)
    returns (sampled: seq<T>, ghost counts: seq<nat>, added: bool)
    requires |before| < limit && InRound(groups, taken, index, 0) && Holds(groups, taken, before)
    requires before == Dealt(groups, index, 0)
    ensures Holds(groups, counts, sampled) && |sampled| <= limit
    ensures if |sampled| < limit then sampled == Dealt(groups, index + 1, 0) else sampled <= Interleaved(groups)
    ensures InRound(groups, counts, index + 1, 0) || (|sampled| == limit && Fair(groups, counts))
    ensures added ==> |sampled| > |before|
    ensures !added ==> |sampled| == Sum(Sizes(groups), |groups|) && InRound(groups, counts, index + 1, 0)
  {
    sampled, counts, added := before, taken, false;
    for j := 0 to |groups|
      invariant InRound(groups, counts, index, j) && Holds(groups, counts, sampled) && |sampled| < limit
      invariant sampled == Dealt(groups, index, j)
      invariant added ==> |sampled| > |before|
      invariant !added ==> sampled == before && Over(groups, index, j)
    {
      var took;
      sampled, counts, took := Turn(groups, index, j, sampled, counts);
      if took {
        added := true;
        if |sampled| >= limit {
          DealtIsPrefix(groups, index, j + 1);
          return;
        }
      }
    }
    RoundEnds(groups, counts, index, sampled);
  }

  // ----- strata -----

  /** How many of the records lie in a stratum. */
  function CountIn<T(!new)>(stratum: T -> int, key: int, records: seq<T>): nat {
    |Filter(In(stratum, key), records)|
  }

  /** The groups are the strata, each in some order. */
  ghost predicate AreStrata<T(!new)>(stratum: T -> int, records: seq<T>, keys: seq<int>, groups: seq<seq<T>>) {
    && AreKeys(stratum, records, keys) && |groups| == |keys|
    && forall g :: 0 <= g < |keys| ==> multiset(groups[g]) == multiset(Filter(In(stratum, keys[g]), records))
  }

  lemma {:induction false} FilterMultiset<T(!new)>(keep: T -> bool, xs: seq<T>, x: T)
    ensures multiset(Filter(keep, xs))[x] == if keep(x) then multiset(xs)[x] else 0
  {
    if xs != [] {
      var init, last := xs[..|xs| - 1], xs[|xs| - 1];
      FilterMultiset(keep, init, x);
      assert xs == init + [last];
    }
  }

  /** Sum over the keys of the stratum sizes. */
  function StrataSum<T(!new)>(stratum: T -> int, records: seq<T>, keys: seq<int>, k: nat): nat
    requires k <= |keys|
  {
    if k == 0 then 0 else StrataSum(stratum, records, keys, k - 1) + CountIn(stratum, keys[k - 1], records)
  }

  lemma LastKey(keys: seq<int>, k: nat, key: int)
    requires 0 < k <= |keys| && Distinct(keys)
    ensures key in keys[..k] <==> key in keys[..k - 1] || key == keys[k - 1]
    ensures keys[k - 1] !in keys[..k - 1]
  {
    assert keys[..k] == keys[..k - 1] + [keys[k - 1]];
  }

  lemma {:induction false} StrataSumAppend<T(!new)>(stratum: T -> int, records: seq<T>, r: T, keys: seq<int>, k: nat)
    requires k <= |keys| && Distinct(keys)
    ensures StrataSum(stratum, records + [r], keys, k)
            == StrataSum(stratum, records, keys, k) + if stratum(r) in keys[..k] then 1 else 0
  {
    if k > 0 {
      StrataSumAppend(stratum, records, r, keys, k - 1);
      FilterAppend(In(stratum, keys[k - 1]), records, r);
      LastKey(keys, k, stratum(r));
    }
  }

  /** The strata partition the records. */
  lemma {:induction false} StrataPartition<T(!new)>(stratum: T -> int, records: seq<T>, keys: seq<int>)
    requires Distinct(keys) && forall r :: r in records ==> stratum(r) in keys
    ensures StrataSum(stratum, records, keys, |keys|) == |records|
  {
    if records == [] {
      EmptyStrata<T>(stratum, keys, |keys|);
    } else {
      var init, last := records[..|records| - 1], records[|records| - 1];
      StrataPartition(stratum, init, keys);
      StrataSumAppend(stratum, init, last, keys, |keys|);
      assert records == init + [last] && keys[..|keys|] == keys;
    }
  }

  lemma {:induction false} EmptyStrata<T(!new)>(stratum: T -> int, keys: seq<int>, k: nat)
    requires k <= |keys|
    ensures StrataSum<T>(stratum, [], keys, k) == 0
  {
    if k > 0 {
      EmptyStrata<T>(stratum, keys, k - 1);
    }
  }

  lemma {:induction false} SizesAreStrata<T(!new)>(stratum: T -> int, records: seq<T>, keys: seq<int>, groups: seq<seq<T>>, k: nat)
    requires AreStrata(stratum, records, keys, groups) && k <= |keys|
    ensures Sum(Sizes(groups), k) == StrataSum(stratum, records, keys, k)
  {
    if k > 0 {
      SizesAreStrata(stratum, records, keys, groups, k - 1);
      SameSize(groups[k - 1], Filter(In(stratum, keys[k - 1]), records));
    }
  }

  lemma SameSize<T>(a: seq<T>, b: seq<T>)
    requires multiset(a) == multiset(b)
    ensures |a| == |b|
  {
    assert |multiset(a)| == |multiset(b)|;
  }

  lemma InGroup<T(!new)>(stratum: T -> int, records: seq<T>, keys: seq<int>, groups: seq<seq<T>>, g: nat, x: T)
    requires AreStrata(stratum, records, keys, groups) && g < |keys| && x in multiset(groups[g])
    ensures stratum(x) == keys[g] && multiset(groups[g])[x] == multiset(records)[x]
  {
    FilterMultiset(In(stratum, keys[g]), records, x);
  }

  lemma PrefixMultiset<T>(xs: seq<T>, n: nat)
    requires n <= |xs|
    ensures multiset(xs[..n]) <= multiset(xs)
  {
    assert xs == xs[..n] + xs[n..];
  }

  lemma NotTakenFrom<T(!new)>(stratum: T -> int, records: seq<T>, keys: seq<int>, groups: seq<seq<T>>,
                              counts: seq<nat>, g: nat, x: T)
    requires AreStrata(stratum, records, keys, groups) && Counts(groups, counts) && g < |groups| && stratum(x) != keys[g]
    ensures multiset(groups[g][..counts[g]])[x] == 0
  {
    PrefixMultiset(groups[g], counts[g]);
    if x in multiset(groups[g]) {
      InGroup(stratum, records, keys, groups, g, x);
    }
  }

  /** The record is taken from no group but possibly group `g`. */
  ghost predicate OnlyFrom<T>(groups: seq<seq<T>>, counts: seq<nat>, g: nat, x: T)
    requires Counts(groups, counts)
  {
    forall h :: 0 <= h < |groups| && h != g ==> multiset(groups[h][..counts[h]])[x] == 0
  }

  lemma {:induction false} TakenFrom<T>(groups: seq<seq<T>>, counts: seq<nat>, k: nat, g: nat, x: T)
    requires Counts(groups, counts) && k <= |groups| && OnlyFrom(groups, counts, g, x)
    ensures Taken(groups, counts, k)[x] == if g < k then multiset(groups[g][..counts[g]])[x] else 0
  {
    if k > 0 {
      TakenFrom(groups, counts, k - 1, g, x);
    }
  }

  /** A record is taken only from its own stratum. */
  lemma TakenOf<T(!new)>(stratum: T -> int, records: seq<T>, keys: seq<int>, groups: seq<seq<T>>,
                         counts: seq<nat>, g: nat, x: T)
    requires AreStrata(stratum, records, keys, groups) && Counts(groups, counts)
    requires if g < |keys| then stratum(x) == keys[g] else stratum(x) !in keys
    ensures Taken(groups, counts, |groups|)[x] == if g < |keys| then multiset(groups[g][..counts[g]])[x] else 0
  {
    forall h | 0 <= h < |groups| && h != g ensures multiset(groups[h][..counts[h]])[x] == 0 {
      NotTakenFrom(stratum, records, keys, groups, counts, h, x);
    }
    TakenFrom(groups, counts, |groups|, g, x);
  }

  /** The sample holds as many records of a stratum as its count says. */
  lemma CountsAreCounts<T(!new)>(stratum: T -> int, records: seq<T>, keys: seq<int>, groups: seq<seq<T>>,
                                 counts: seq<nat>, sampled: seq<T>, g: nat)
    requires AreStrata(stratum, records, keys, groups) && Holds(groups, counts, sampled) && g < |keys|
    ensures CountIn(stratum, keys[g], sampled) == counts[g] && CountIn(stratum, keys[g], records) == |groups[g]|
  {
    var chosen, prefix := Filter(In(stratum, keys[g]), sampled), groups[g][..counts[g]];
    SameSize(groups[g], Filter(In(stratum, keys[g]), records));
    forall x ensures multiset(chosen)[x] == multiset(prefix)[x] {
      FilterMultiset(In(stratum, keys[g]), sampled, x);
      if stratum(x) == keys[g] {
        TakenOf(stratum, records, keys, groups, counts, g, x);
      } else if x in multiset(prefix) {
        PrefixMultiset(groups[g], counts[g]);
        InGroup(stratum, records, keys, groups, g, x);
      }
    }
    assert multiset(chosen) == multiset(prefix);
    SameSize(chosen, prefix);
  }

  /** Nothing is sampled that is not a record, nor more often. */
  lemma TakenAreRecords<T(!new)>(stratum: T -> int, records: seq<T>, keys: seq<int>, groups: seq<seq<T>>,
                                 counts: seq<nat>, sampled: seq<T>)
    requires AreStrata(stratum, records, keys, groups) && Holds(groups, counts, sampled)
    ensures multiset(sampled) <= multiset(records)
  {
    forall x ensures multiset(sampled)[x] <= multiset(records)[x] {
      if stratum(x) in keys {
        var g :| 0 <= g < |keys| && keys[g] == stratum(x);
        TakenOf(stratum, records, keys, groups, counts, g, x);
        PrefixMultiset(groups[g], counts[g]);
        if x in multiset(groups[g]) {
          InGroup(stratum, records, keys, groups, g, x);
        }
      } else {
        TakenOf(stratum, records, keys, groups, counts, |keys|, x);
      }
    }
  }

  function Itself(k: int): int {
    k
  }

  /** The stratum of a key, ordered by rank. */
  function SortedStratum<T(!new)>(stratum: T -> int, rank: T -> int, records: seq<T>, key: int): seq<T> {
    SortBy(rank, Filter(In(stratum, key), records))
  }

  function SortedKeys<T>(stratum: T -> int, records: seq<T>): seq<int> {
    SortBy(Itself, KeysOf(stratum, records))
  }

  /** The strata in the order of their keys, each ordered by rank. */
  function SortedStrata<T(!new)>(stratum: T -> int, rank: T -> int, records: seq<T>): (groups: seq<seq<T>>)
    ensures |groups| == |SortedKeys(stratum, records)|
    ensures forall g :: 0 <= g < |groups| ==> groups[g] == SortedStratum(stratum, rank, records, SortedKeys(stratum, records)[g])
  {
    var keys := SortedKeys(stratum, records);
    seq(|keys|, g requires 0 <= g < |keys| => SortedStratum(stratum, rank, records, keys[g]))
  }

  lemma SortedStrataAreStrata<T(!new)>(stratum: T -> int, rank: T -> int, records: seq<T>)
    ensures AreStrata(stratum, records, SortedKeys(stratum, records), SortedStrata(stratum, rank, records))
  {
    var unsorted, keys := KeysOf(stratum, records), SortedKeys(stratum, records);
    KeysOfAreKeys(stratum, records);
    SortByKeeps(Itself, unsorted);
    PermutationIsDistinct(unsorted, keys);
    KeysPermute(stratum, records, unsorted, keys);
    forall g | 0 <= g < |keys|
      ensures multiset(SortedStrata(stratum, rank, records)[g]) == multiset(Filter(In(stratum, keys[g]), records))
    {
      SortByKeeps(rank, Filter(In(stratum, keys[g]), records));
    }
  }

  method Strata<T(!new)>(records: seq<T>, stratum: T -> int, rank: T -> int) returns (groups: seq<seq<T>>)
    ensures groups == SortedStrata(stratum, rank, records)
  {
    var unsorted, members := GroupBy(records, stratum);
    var keys := SortBy(Itself, unsorted);
    SortByKeeps(Itself, unsorted);
    groups := [];
    for g := 0 to |keys|
      invariant |groups| == g
      invariant forall h :: 0 <= h < g ==> groups[h] == SortedStratum(stratum, rank, records, keys[h])
    {
      assert keys[g] in multiset(keys) && keys[g] in unsorted;
      groups := groups + [SortBy(rank, members[keys[g]])];
    }
  }

  /** No stratum is more than one record ahead of another that still has some left. */
  ghost predicate IsFair<T(!new)>(stratum: T -> int, records: seq<T>, sampled: seq<T>, r: T, q: T) {
    || CountIn(stratum, stratum(q), sampled) <= CountIn(stratum, stratum(r), sampled) + 1
    || CountIn(stratum, stratum(r), sampled) == CountIn(stratum, stratum(r), records)
  }

  lemma FairCountsAreFair<T(!new)>(stratum: T -> int, records: seq<T>, keys: seq<int>, groups: seq<seq<T>>,
                                   counts: seq<nat>, sampled: seq<T>, r: T, q: T)
    requires AreStrata(stratum, records, keys, groups) && Holds(groups, counts, sampled) && Fair(groups, counts)
    requires r in records && q in records
    ensures IsFair(stratum, records, sampled, r, q)
  {
    var g: nat :| g < |keys| && keys[g] == stratum(r);
    var h: nat :| h < |keys| && keys[h] == stratum(q);
    CountsAreCounts(stratum, records, keys, groups, counts, sampled, g);
    CountsAreCounts(stratum, records, keys, groups, counts, sampled, h);
  }

  /**
   The sample is what the limit allows of the sorted strata, dealt round by
   round; it holds no record twice and is fair to the strata.
   */
  method StratifiedSample<T(!new)>(records: seq<T>, stratum: T -> int, rank: T -> int, limit: nat) returns (sampled: seq<T>)
    ensures sampled <= Interleaved(SortedStrata(stratum, rank, records))
    ensures |sampled| == Min(limit, |records|) && multiset(sampled) <= multiset(records)
    ensures forall r, q :: r in records && q in records ==> IsFair(stratum, records, sampled, r, q)
  {
    if limit <= 0 || records == [] {
      return [];
    }
    var groups := Strata(records, stratum, rank);
    ghost var counts;
    sampled, counts := RoundRobin(groups, limit);
    ghost var keys := SortedKeys(stratum, records);
    SortedStrataAreStrata(stratum, rank, records);
    SizesAreStrata(stratum, records, keys, groups, |keys|);
    StrataPartition(stratum, records, keys);
    TakenAreRecords(stratum, records, keys, groups, counts, sampled);
    forall r, q | r in records && q in records ensures IsFair(stratum, records, sampled, r, q) {
      FairCountsAreFair(stratum, records, keys, groups, counts, sampled, r, q);
    }
  }
}
