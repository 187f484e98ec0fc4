/** list.sort(key=...) and sorted(), as a stable insertion sort. */
module Sorting {
  import opened Wrappers

  /** Inserts behind the elements whose rank is not larger. */
  function Insert<T>(rank: T -> int, x: T, xs: seq<T>): seq<T> {
    if xs == [] || rank(x) < rank(xs[0]) then [x] + xs else [xs[0]] + Insert(rank, x, xs[1..])
  }

  function SortBy<T>(rank: T -> int, xs: seq<T>): seq<T> {
    if xs == [] then [] else Insert(rank, xs[|xs| - 1], SortBy(rank, xs[..|xs| - 1]))
  }

  ghost predicate Ranked<T>(rank: T -> int, xs: seq<T>) {
    forall i, j :: 0 <= i < j < |xs| ==> rank(xs[i]) <= rank(xs[j])
  }

  lemma {:induction false} InsertPermutes<T>(rank: T -> int, x: T, xs: seq<T>)
    ensures multiset(Insert(rank, x, xs)) == multiset(xs) + multiset{x}
  {
    if xs != [] && rank(x) >= rank(xs[0]) {
      InsertPermutes(rank, x, xs[1..]);
      assert xs == [xs[0]] + xs[1..];
    }
  }

  lemma {:induction false} InsertRanks<T>(rank: T -> int, x: T, xs: seq<T>)
    requires Ranked(rank, xs)
    ensures Ranked(rank, Insert(rank, x, xs))
  {
    if xs != [] && rank(x) >= rank(xs[0]) {
      var rest := Insert(rank, x, xs[1..]);
      InsertRanks(rank, x, xs[1..]);
      InsertPermutes(rank, x, xs[1..]);
      forall j | 0 <= j < |rest| ensures rank(xs[0]) <= rank(rest[j]) {
        assert rest[j] in multiset(rest);
        if rest[j] != x {
          assert rest[j] in xs[1..];
        }
      }
    }
  }

  /** Sorting permutes, and orders by rank. */
  lemma {:induction false} SortByKeeps<T>(rank: T -> int, xs: seq<T>)
    ensures multiset(SortBy(rank, xs)) == multiset(xs) && |SortBy(rank, xs)| == |xs|
    ensures Ranked(rank, SortBy(rank, xs))
  {
    if xs != [] {
      var init := xs[..|xs| - 1];
      SortByKeeps(rank, init);
      InsertPermutes(rank, xs[|xs| - 1], SortBy(rank, init));
      InsertRanks(rank, xs[|xs| - 1], SortBy(rank, init));
      assert xs == init + [xs[|xs| - 1]];
    }
    assert |multiset(SortBy(rank, xs))| == |multiset(xs)|;
  }

  lemma {:induction false} SortCongruence<T(!new)>(f: T -> int, g: T -> int, xs: seq<T>)
    requires forall x :: x in xs ==> f(x) == g(x)
    ensures SortBy(f, xs) == SortBy(g, xs)
  {
    if xs != [] {
      var init, last := xs[..|xs| - 1], xs[|xs| - 1];
      SortCongruence(f, g, init);
      SortByKeeps(f, init);
      forall x | x in SortBy(f, init) ensures f(x) == g(x) {
        assert x in multiset(SortBy(f, init));
      }
      InsertCongruence(f, g, last, SortBy(f, init));
    }
  }

  lemma {:induction false} InsertCongruence<T>(f: T -> int, g: T -> int, x: T, xs: seq<T>)
    requires f(x) == g(x) && forall y :: y in xs ==> f(y) == g(y)
    ensures Insert(f, x, xs) == Insert(g, x, xs)
  {
    if xs != [] {
      InsertCongruence(f, g, x, xs[1..]);
    }
  }

  lemma {:induction false} OnceInMultiset<T>(xs: seq<T>, x: T)
    requires Distinct(xs)
    ensures multiset(xs)[x] <= 1
  {
    if xs != [] {
      var init, last := xs[..|xs| - 1], xs[|xs| - 1];
      OnceInMultiset(init, x);
      assert xs == init + [last] && last !in init;
    }
  }

  /** A permutation of distinct elements is distinct. */
  lemma PermutationIsDistinct<T>(xs: seq<T>, permuted: seq<T>)
    requires Distinct(xs) && multiset(permuted) == multiset(xs)
    ensures Distinct(permuted)
  {
    forall i, j | 0 <= i < j < |permuted| ensures permuted[i] != permuted[j] {
      if permuted[i] == permuted[j] {
        assert permuted == permuted[..j] + [permuted[j]] + permuted[j + 1..] && permuted[i] in permuted[..j];
        OnceInMultiset(xs, permuted[i]);
      }
    }
  }
}
