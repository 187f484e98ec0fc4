/** Result types and small sequence facts shared by every other module. */
module Wrappers {

  datatype Option<+T> = None | Some(value: T)

  function Min(a: nat, b: nat): nat {
    if a <= b then a else b
  }

  /** The elements of `xs` that satisfy `keep`, in order: a query's WHERE clause. */
  function Filter<T(!new)>(keep: T -> bool, xs: seq<T>): (r: seq<T>)
    ensures forall x :: x in r <==> x in xs && keep(x)
  {
    if xs == [] then [] else
    var init := Filter(keep, xs[..|xs| - 1]);
    if keep(xs[|xs| - 1]) then init + [xs[|xs| - 1]] else init
  }

  lemma FilterAppend<T(!new)>(keep: T -> bool, xs: seq<T>, x: T)
    ensures Filter(keep, xs + [x]) == Filter(keep, xs) + (if keep(x) then [x] else [])
  {
    assert (xs + [x])[..|xs|] == xs;
  }

  lemma {:induction false} FilterCongruence<T(!new)>(f: T -> bool, g: T -> bool, xs: seq<T>)
    requires forall x :: x in xs ==> f(x) == g(x)
    ensures Filter(f, xs) == Filter(g, xs)
  {
    if xs != [] {
      FilterCongruence(f, g, xs[..|xs| - 1]);
    }
  }

  ghost predicate Distinct<T>(xs: seq<T>) {
    forall i, j :: 0 <= i < j < |xs| ==> xs[i] != xs[j]
  }

  lemma {:induction false} FilterDistinct<T(!new)>(keep: T -> bool, xs: seq<T>)
    requires Distinct(xs)
    ensures Distinct(Filter(keep, xs))
  {
    if xs != [] {
      var init, last := xs[..|xs| - 1], xs[|xs| - 1];
      FilterDistinct(keep, init);
      assert last !in init;
    }
  }

  lemma {:induction false} FilterFilter<T(!new)>(f: T -> bool, g: T -> bool, xs: seq<T>)
    requires forall x :: x in xs && f(x) ==> g(x)
    ensures Filter(f, xs) == Filter(f, Filter(g, xs))
  {
    if xs != [] {
      var init, last := xs[..|xs| - 1], xs[|xs| - 1];
      FilterFilter(f, g, init);
      if g(last) {
        FilterAppend(f, Filter(g, init), last);
      }
    }
  }

  /** A property only the last element has selects exactly that element. */
  lemma {:induction false} FilterOnlyLast<T(!new)>(f: T -> bool, xs: seq<T>)
    requires xs != [] && Distinct(xs)
    requires forall x :: x in xs ==> (f(x) <==> x == xs[|xs| - 1])
    ensures Filter(f, xs) == [xs[|xs| - 1]]
  {
    var init, last := xs[..|xs| - 1], xs[|xs| - 1];
    assert last !in init;
    FilterEmptyIff(f, init);
  }

  lemma {:induction false} FilterEmptyIff<T(!new)>(f: T -> bool, xs: seq<T>)
    ensures Filter(f, xs) == [] <==> forall x :: x in xs ==> !f(x)
  {
    if xs != [] {
      FilterEmptyIff(f, xs[..|xs| - 1]);
      assert forall x :: x in xs <==> x in xs[..|xs| - 1] || x == xs[|xs| - 1];
    }
  }
}
