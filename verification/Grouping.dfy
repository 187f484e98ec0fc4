/** Grouping into a defaultdict(list): the lists keep the order of the elements. */
module Grouping {
  import opened Wrappers

  function In<T, K(==,!new)>(stratum: T -> K, key: K): T -> bool {
    r => stratum(r) == key
  }

  /** Each record's key is listed, and none twice. */
  ghost predicate AreKeys<T(!new), K(!new)>(stratum: T -> K, records: seq<T>, keys: seq<K>) {
    Distinct(keys) && forall r :: r in records ==> stratum(r) in keys
  }

  /** The keys of the records, in order of appearance. */
  function KeysOf<T, K(==)>(stratum: T -> K, records: seq<T>): seq<K> {
    if records == [] then [] else
    var before, key := KeysOf(stratum, records[..|records| - 1]), stratum(records[|records| - 1]);
    if key in before then before else before + [key]
  }

  lemma {:induction false} KeysOfAreKeys<T(!new), K(!new)>(stratum: T -> K, records: seq<T>)
    ensures AreKeys(stratum, records, KeysOf(stratum, records))
  {
    if records != [] {
      var init, last := records[..|records| - 1], records[|records| - 1];
      KeysOfAreKeys(stratum, init);
      assert records == init + [last];
    }
  }

  lemma KeysPermute<T(!new), K(!new)>(stratum: T -> K, records: seq<T>, keys: seq<K>, ordered: seq<K>)
    requires AreKeys(stratum, records, keys) && Distinct(ordered) && multiset(ordered) == multiset(keys)
    ensures AreKeys(stratum, records, ordered)
  {
    forall r | r in records ensures stratum(r) in ordered {
      assert stratum(r) in multiset(keys);
    }
  }

  /** Each key is mapped to the records of its stratum, in order. */
  ghost predicate Grouped<T(!new), K(!new)>(stratum: T -> K, records: seq<T>, keys: seq<K>, members: map<K, seq<T>>) {
    && (forall k :: k in keys <==> k in members)
    && forall k :: k in members ==> members[k] == Filter(In(stratum, k), records)
  }

  lemma KeysGrow<T(!new), K(!new)>(stratum: T -> K, records: seq<T>, keys: seq<K>, r: T)
    requires AreKeys(stratum, records, keys)
    ensures AreKeys(stratum, records + [r], if stratum(r) in keys then keys else keys + [stratum(r)])
  {
  }

  lemma GroupsGrow<T(!new), K(!new)>(stratum: T -> K, records: seq<T>, keys: seq<K>, members: map<K, seq<T>>, r: T)
    requires AreKeys(stratum, records, keys) && Grouped(stratum, records, keys, members)
    ensures var key := stratum(r);
            if key in members then Grouped(stratum, records + [r], keys, members[key := members[key] + [r]])
            else Grouped(stratum, records + [r], keys + [key], members[key := [r]])
  {
    forall k ensures Filter(In(stratum, k), records + [r])
                     == Filter(In(stratum, k), records) + (if k == stratum(r) then [r] else [])
    {
      FilterAppend(In(stratum, k), records, r);
    }
    if stratum(r) !in members {
      FilterEmptyIff(In(stratum, stratum(r)), records);
    }
  }

  /** Collects the records of each stratum, keys in order of appearance. */
  method GroupBy<T(!new), K(==,!new)>(records: seq<T>, stratum: T -> K) returns (keys: seq<K>, members: map<K, seq<T>>)
    ensures AreKeys(stratum, records, keys) && Grouped(stratum, records, keys, members)
    ensures keys == KeysOf(stratum, records)
  {
    keys, members := [], map[];
    for i := 0 to |records|
      invariant AreKeys(stratum, records[..i], keys) && Grouped(stratum, records[..i], keys, members)
      invariant keys == KeysOf(stratum, records[..i])
    {
      var r, key := records[i], stratum(records[i]);
      assert records[..i + 1] == records[..i] + [r] && records[..i + 1][..i] == records[..i];
      KeysGrow(stratum, records[..i], keys, r);
      GroupsGrow(stratum, records[..i], keys, members, r);
      if key in members {
        members := members[key := members[key] + [r]];
      } else {
        keys := keys + [key];
        members := members[key := [r]];
      }
    }
    assert records[..|records|] == records;
  }

  /** Another element of the list has the same key. */
  ghost predicate HasTwin<T(!new), K(!new)>(stratum: T -> K, records: seq<T>, r: T) {
    exists q :: q in records && q != r && stratum(q) == stratum(r)
  }

  lemma CrowdedIff<T(!new), K(!new)>(stratum: T -> K, records: seq<T>, r: T)
    requires Distinct(records) && r in records
    ensures |Filter(In(stratum, stratum(r)), records)| > 1 <==> HasTwin(stratum, records, r)
  {
    var group := Filter(In(stratum, stratum(r)), records);
    FilterDistinct(In(stratum, stratum(r)), records);
    if |group| > 1 {
      var q := if group[0] == r then group[1] else group[0];
      assert q in group && q != r;
    }
  }

  lemma DistinctAppend<T>(a: seq<T>, b: seq<T>)
    requires Distinct(a) && Distinct(b) && forall x :: x in b ==> x !in a
    ensures Distinct(a + b)
  {
    forall i, j | 0 <= i < j < |a + b| ensures (a + b)[i] != (a + b)[j] {
      if i < |a| <= j {
        assert (a + b)[j] == b[j - |a|] && (a + b)[j] in b;
      }
    }
  }

  /** The members of the groups of two or more. */
  method Crowded<T(!new), K(==,!new)>(records: seq<T>, stratum: T -> K) returns (crowded: seq<T>)
    requires Distinct(records)
    ensures forall r :: r in crowded <==> r in records && HasTwin(stratum, records, r)
    ensures Distinct(crowded)
  {
    var keys, members := GroupBy(records, stratum);
    crowded := [];
    for k := 0 to |keys|
      invariant forall r :: r in crowded <==> r in records && stratum(r) in keys[..k] && HasTwin(stratum, records, r)
      invariant Distinct(crowded)
    {
      ghost var before := crowded;
      var group := members[keys[k]];
      if |group| > 1 {
        FilterDistinct(In(stratum, keys[k]), records);
        forall r | r in group ensures r !in crowded {
          assert stratum(r) == keys[k];
        }
        DistinctAppend(crowded, group);
        crowded := crowded + group;
      }
      assert keys[..k + 1] == keys[..k] + [keys[k]];
      forall r ensures r in crowded <==> r in records && stratum(r) in keys[..k + 1] && HasTwin(stratum, records, r) {
        if r in records && stratum(r) == keys[k] {
          CrowdedIff(stratum, records, r);
        }
      }
    }
    assert keys[..|keys|] == keys;
  }
}
