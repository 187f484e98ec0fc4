/**
 When an "all" query is certain to find the bodies that contain it: exactly when
 each of its ends is safe against what may stand beside it.
 */
module TermMatching {
  import opened Tokenizer

  /** A single CJK character is a term just where it stands alone. */
  lemma CjkCharacterIsTermIff(alnum: char -> bool, body: string, c: char)
    requires IsCjk(c)
    ensures [c] in Terms(alnum, body) <==> exists a: nat :: IsRun(alnum, body, a, a + 1) && body[a] == c
  {
    TermsAreRunTerms(alnum, body);
    if IsTerm(alnum, body, [c]) {
      var a: nat, b: nat :| IsRunTerm(alnum, body, a, b, [c]);
      StandsAlone(alnum, body, a, b, c);
    }
    if a: nat :| IsRun(alnum, body, a, a + 1) && body[a] == c {
      AloneIsTerm(alnum, body, a);
    }
  }

  lemma StandsAlone(alnum: char -> bool, body: string, a: nat, b: nat, c: char)
    requires IsCjk(c) && IsRunTerm(alnum, body, a, b, [c])
    ensures b == a + 1 && body[a] == c
  {
    SingleRunTerm(alnum, body, a, b, [c]);
    assert |body[a..b]| == b - a && body[a..b][0] == body[a];
  }

  lemma AloneIsTerm(alnum: char -> bool, body: string, a: nat)
    requires IsRun(alnum, body, a, a + 1)
    ensures IsTerm(alnum, body, [body[a]])
  {
    assert body[a..a + 1] == [body[a]];
    assert IsRunTerm(alnum, body, a, a + 1, [body[a]]);
  }

  /** Not two CJK characters or more, and so, if a term at all, the term of a run that it fills. */
  predicate FillsRun(t: string) {
    t != "" && !StartsWithCjkPair(t)
  }

  lemma SingleRunTerm(alnum: char -> bool, text: string, a: nat, b: nat, t: string)
    requires IsRunTerm(alnum, text, a, b, t) && FillsRun(t)
    ensures text[a..b] == t
  {
    var run := text[a..b];
    if KindOf(alnum, text[a]) == Cjk && |run| >= 2 {
      var k :| 0 <= k < |Pairs(run)| && Pairs(run)[k] == t;
      RunIsUniform(alnum, text, a, b, k);
      RunIsUniform(alnum, text, a, b, k + 1);
      assert false;
    }
  }

  // ----- safe ends -----

  /** The term also stands inside the query, away from both ends. */
  ghost predicate RecursInside(alnum: char -> bool, q: string, t: string) {
    exists a: nat, b: nat :: 0 < a && b < |q| && IsRun(alnum, q, a, b) && q[a..b] == t
  }

  function FirstRun(alnum: char -> bool, q: string): string
    requires q != ""
  {
    q[..RunEnd(alnum, q, 0)]
  }

  function LastRun(alnum: char -> bool, q: string): string
    requires q != ""
  {
    q[RunStart(alnum, q, |q| - 1)..]
  }

  /** Whatever stands before the query, the terms of its first run are found. */
  ghost predicate LeftSafe(alnum: char -> bool, q: string) {
    q == "" || KindOf(alnum, q[0]) == Other || StartsWithCjkPair(q) || RecursInside(alnum, q, FirstRun(alnum, q))
  }

  ghost predicate RightSafe(alnum: char -> bool, q: string) {
    q == "" || KindOf(alnum, q[|q| - 1]) == Other || EndsWithCjkPair(q) || RecursInside(alnum, q, LastRun(alnum, q))
  }

  /** All terms of the query are terms of the body in which it stands between `x` and `y`. */
  ghost predicate FoundIn(alnum: char -> bool, q: string, x: string, y: string) {
    forall t :: t in Terms(alnum, q) ==> t in Terms(alnum, x + q + y)
  }

  ghost predicate FoundEverywhere(alnum: char -> bool, q: string) {
    forall x, y :: FoundIn(alnum, q, x, y)
  }

  // ----- safe queries are found -----

  /** A run away from both ends of the query is a run of the body. */
  lemma InnerRun(alnum: char -> bool, x: string, q: string, y: string, a: nat, b: nat)
    requires IsRun(alnum, q, a, b) && 0 < a && b < |q|
    ensures IsRun(alnum, x + q + y, |x| + a, |x| + b) && (x + q + y)[|x| + a..|x| + b] == q[a..b]
  {
    var body := x + q + y;
    forall k | a - 1 <= k <= b ensures body[|x| + k] == q[k] {
      BodyAt(x, q, y, |x| + k);
    }
    forall k | |x| + a <= k < |x| + b ensures KindOf(alnum, body[k]) == KindOf(alnum, body[|x| + a]) {
      assert body[|x| + (k - |x|)] == q[k - |x|];
    }
    BodySlice(x, q, y, a, b);
  }

  lemma InnerTerm(alnum: char -> bool, x: string, q: string, y: string, a: nat, b: nat, t: string)
    requires IsRunTerm(alnum, q, a, b, t) && 0 < a && b < |q|
    ensures IsTerm(alnum, x + q + y, t)
  {
    InnerRun(alnum, x, q, y, a, b);
    BodyAt(x, q, y, |x| + a);
    assert IsRunTerm(alnum, x + q + y, |x| + a, |x| + b, t);
  }

  /** A CJK run of the query lies inside one of the body. */
  lemma CjkRunGrows(alnum: char -> bool, x: string, q: string, y: string, a: nat, b: nat) returns (c: nat, d: nat)
    requires IsRun(alnum, q, a, b) && KindOf(alnum, q[a]) == Cjk
    ensures IsRun(alnum, x + q + y, c, d) && KindOf(alnum, (x + q + y)[c]) == Cjk
    ensures c <= |x| + a && |x| + b <= d
  {
    var body, at := x + q + y, |x| + a;
    BodyAt(x, q, y, at);
    c, d := RunStart(alnum, body, at), RunEnd(alnum, body, at);
    if d < |x| + b {
      BodyAt(x, q, y, d);
    }
  }

  /** A CJK run of a body has the pairs of whatever lies inside it. */
  lemma PairsInRun(alnum: char -> bool, body: string, c: nat, d: nat, at: nat, part: string, t: string)
    requires IsRun(alnum, body, c, d) && KindOf(alnum, body[c]) == Cjk
    requires c <= at && at + |part| <= d && body[at..at + |part|] == part && |part| >= 2 && t in TermsOfRun(Cjk, part)
    ensures IsTerm(alnum, body, t)
  {
    LongerRunTerm(Cjk, body, c, d, at, part, t);
    assert IsRunTerm(alnum, body, c, d, t);
  }

  /** The pairs of a CJK run survive whatever the run grows into. */
  lemma PairsSurvive(alnum: char -> bool, x: string, q: string, y: string, a: nat, b: nat, t: string)
    requires IsRunTerm(alnum, q, a, b, t) && KindOf(alnum, q[a]) == Cjk && b - a >= 2
    ensures IsTerm(alnum, x + q + y, t)
  {
    var c, d := CjkRunGrows(alnum, x, q, y, a, b);
    BodySlice(x, q, y, a, b);
    PairsInRun(alnum, x + q + y, c, d, |x| + a, q[a..b], t);
  }

  lemma RecurringTerm(alnum: char -> bool, x: string, q: string, y: string, t: string)
    requires RecursInside(alnum, q, t) && FillsRun(t)
    ensures IsTerm(alnum, x + q + y, t)
  {
    var a: nat, b: nat :| 0 < a && b < |q| && IsRun(alnum, q, a, b) && q[a..b] == t;
    FilledRunTerm(alnum, q, a, b);
    InnerTerm(alnum, x, q, y, a, b, t);
  }

  lemma FilledRunTerm(alnum: char -> bool, q: string, a: nat, b: nat)
    requires IsRun(alnum, q, a, b) && FillsRun(q[a..b])
    ensures IsRunTerm(alnum, q, a, b, q[a..b])
  {
    assert q[a..b][0] == q[a];
    if b - a >= 2 {
      assert q[a..b][1] == q[a + 1];
    }
  }

  /** A term of a run at a safe end is found. */
  lemma EndTermFound(alnum: char -> bool, x: string, q: string, y: string, a: nat, b: nat, t: string)
    requires IsRunTerm(alnum, q, a, b, t) && LeftSafe(alnum, q) && RightSafe(alnum, q)
    ensures IsTerm(alnum, x + q + y, t)
  {
    if 0 < a && b < |q| {
      InnerTerm(alnum, x, q, y, a, b, t);
    } else if KindOf(alnum, q[a]) == Cjk && b - a >= 2 {
      PairsSurvive(alnum, x, q, y, a, b, t);
    } else {
      assert t == q[a..b];
      if a == 0 {
        FirstRunIs(alnum, q, b);
      } else {
        LastRunIs(alnum, q, a);
      }
      RecurringTerm(alnum, x, q, y, t);
    }
  }

  lemma FirstRunIs(alnum: char -> bool, q: string, b: nat)
    requires IsRun(alnum, q, 0, b)
    ensures FirstRun(alnum, q) == q[0..b]
    ensures StartsWithCjkPair(q) <==> KindOf(alnum, q[0]) == Cjk && b >= 2
    ensures FillsRun(q[0..b]) <==> !StartsWithCjkPair(q)
  {
  }

  lemma LastRunIs(alnum: char -> bool, q: string, a: nat)
    requires IsRun(alnum, q, a, |q|)
    ensures LastRun(alnum, q) == q[a..]
    ensures EndsWithCjkPair(q) <==> KindOf(alnum, q[a]) == Cjk && |q| - a >= 2
    ensures FillsRun(q[a..]) <==> !EndsWithCjkPair(q)
  {
    LastRunStart(alnum, q, a);
    assert KindOf(alnum, q[|q| - 1]) == KindOf(alnum, q[a]);
    assert q[a..][0] == q[a];
    if |q| - a >= 2 {
      assert KindOf(alnum, q[|q| - 2]) == KindOf(alnum, q[a]) == KindOf(alnum, q[a + 1]);
      assert q[a..][1] == q[a + 1];
    } else {
      assert |q| >= 2 ==> KindOf(alnum, q[|q| - 2]) != KindOf(alnum, q[a]);
    }
  }

  lemma LastRunStart(alnum: char -> bool, q: string, a: nat)
    requires IsRun(alnum, q, a, |q|)
    ensures RunStart(alnum, q, |q| - 1) == a
  {
    var s := RunStart(alnum, q, |q| - 1);
    assert KindOf(alnum, q[|q| - 1]) == KindOf(alnum, q[a]);
  }

  lemma SafeIsFound(alnum: char -> bool, q: string, x: string, y: string)
    requires LeftSafe(alnum, q) && RightSafe(alnum, q)
    ensures FoundIn(alnum, q, x, y)
  {
    TermsAreRunTerms(alnum, q);
    TermsAreRunTerms(alnum, x + q + y);
    forall t | IsTerm(alnum, q, t) ensures IsTerm(alnum, x + q + y, t) {
      var a: nat, b: nat :| IsRunTerm(alnum, q, a, b, t);
      EndTermFound(alnum, x, q, y, a, b, t);
    }
  }

  // ----- unsafe queries can be missed -----

  /** The query beside at most one more of its own end characters on each side. */
  predicate Beside(q: string, x: string, y: string) {
    q != "" && (x == "" || x == [q[0]]) && (y == "" || y == [q[|q| - 1]])
  }

  lemma InnerBounds(alnum: char -> bool, q: string, x: string, y: string, c: nat, d: nat)
    requires Beside(q, x, y) && IsRun(alnum, x + q + y, c, d) && 0 < c && d < |x + q + y|
    ensures 0 < c - |x| && d - |x| < |q|
  {
    var body := x + q + y;
    if x != "" {
      BodyAt(x, q, y, 0);
      BodyAt(x, q, y, 1);
    }
    if y != "" {
      BodyAt(x, q, y, |x| + |q|);
      BodyAt(x, q, y, |x| + |q| - 1);
    }
  }

  /** A run of the body away from both ends of the query is a run of the query. */
  lemma RunOfQuery(alnum: char -> bool, q: string, x: string, y: string, a: nat, b: nat)
    requires 0 < a && b < |q| && IsRun(alnum, x + q + y, |x| + a, |x| + b)
    ensures IsRun(alnum, q, a, b) && (x + q + y)[|x| + a..|x| + b] == q[a..b]
  {
    QueryInBody(x, q, y);
    ShiftedRun(alnum, x + q + y, q, |x|, a, b);
    BodySlice(x, q, y, a, b);
  }

  lemma QueryInBody(x: string, q: string, y: string)
    ensures forall k :: 0 <= k < |q| ==> q[k] == (x + q + y)[|x| + k]
  {
    forall k | 0 <= k < |q| ensures q[k] == (x + q + y)[|x| + k] {
      BodyAt(x, q, y, |x| + k);
    }
  }

  lemma ShiftedRun(alnum: char -> bool, body: string, q: string, shift: nat, a: nat, b: nat)
    requires 0 < a && b < |q| && shift + b < |body| && IsRun(alnum, body, shift + a, shift + b)
    requires shift + |q| <= |body| && forall k :: 0 <= k < |q| ==> q[k] == body[shift + k]
    ensures IsRun(alnum, q, a, b)
  {
    assert q[a - 1] == body[shift + (a - 1)] && q[b] == body[shift + b];
    forall k | a <= k < b ensures KindOf(alnum, q[k]) == KindOf(alnum, q[a]) {
      assert q[k] == body[shift + k] && q[a] == body[shift + a];
    }
  }

  /** A run inside such a body stands inside the query as well. */
  lemma InnerRunRecurs(alnum: char -> bool, q: string, x: string, y: string, c: nat, d: nat)
    requires Beside(q, x, y) && 0 < c && d < |x + q + y| && IsRun(alnum, x + q + y, c, d)
    ensures RecursInside(alnum, q, (x + q + y)[c..d])
  {
    InnerBounds(alnum, q, x, y, c, d);
    RunOfQuery(alnum, q, x, y, c - |x|, d - |x|);
  }

  lemma Missed(alnum: char -> bool, q: string, x: string, y: string, t: string)
    requires Beside(q, x, y) && FillsRun(t) && !RecursInside(alnum, q, t)
    requires forall c: nat, d: nat :: IsRun(alnum, x + q + y, c, d) && (c == 0 || d == |x + q + y|) ==> (x + q + y)[c..d] != t
    ensures !IsTerm(alnum, x + q + y, t)
  {
    if c: nat, d: nat :| IsRunTerm(alnum, x + q + y, c, d, t) {
      SingleRunTerm(alnum, x + q + y, c, d, t);
      if 0 < c && d < |x + q + y| {
        InnerRunRecurs(alnum, q, x, y, c, d);
      }
    }
  }

  /** One more character in front makes the first run longer. */
  lemma FirstRunLonger(alnum: char -> bool, q: string, y: string, d: nat)
    requires q != "" && KindOf(alnum, q[0]) != Other && IsRun(alnum, [q[0]] + q + y, 0, d)
    ensures d > |FirstRun(alnum, q)|
  {
    var body, e := [q[0]] + q + y, RunEnd(alnum, q, 0);
    forall k | 1 <= k <= e ensures KindOf(alnum, body[k]) == KindOf(alnum, q[0]) {
      BodyAt([q[0]], q, y, k);
    }
    assert body[0] == q[0];
  }

  lemma LastRunLonger(alnum: char -> bool, q: string, x: string, c: nat)
    requires q != "" && KindOf(alnum, q[|q| - 1]) != Other
    requires IsRun(alnum, x + q + [q[|q| - 1]], c, |x + q + [q[|q| - 1]]|)
    ensures |x + q + [q[|q| - 1]]| - c > |LastRun(alnum, q)|
  {
    var last := q[|q| - 1];
    var body, s := x + q + [last], RunStart(alnum, q, |q| - 1);
    forall k | |x| + s <= k < |x| + |q| ensures KindOf(alnum, body[k]) == KindOf(alnum, last) {
      BodyAt(x, q, [last], k);
    }
    assert body[|x| + |q|] == last;
  }

  /** Without more behind it, the last run of the body is that of the query, unless it reaches the front. */
  lemma LastRunSame(alnum: char -> bool, q: string, x: string, c: nat)
    requires Beside(q, x, "") && IsRun(alnum, x + q, c, |x + q|) && c > 0
    ensures (x + q)[c..] == LastRun(alnum, q)
  {
    LastRunAt(alnum, q, x, c);
    var s := RunStart(alnum, q, |q| - 1);
    assert (x + q)[|x| + s..] == q[s..];
  }

  lemma LastRunAt(alnum: char -> bool, q: string, x: string, c: nat)
    requires Beside(q, x, "") && IsRun(alnum, x + q, c, |x + q|) && c > 0
    ensures c == |x| + RunStart(alnum, q, |q| - 1)
  {
    var body := x + q;
    forall k | 0 <= k < |q| ensures body[|x| + k] == q[k] {
    }
    assert body[|body| - 1] == q[|q| - 1];
  }

  lemma FirstRunSame(alnum: char -> bool, q: string, y: string, d: nat)
    requires Beside(q, "", y) && IsRun(alnum, q + y, 0, d) && d < |q + y|
    ensures (q + y)[..d] == FirstRun(alnum, q)
  {
    var body, e := q + y, RunEnd(alnum, q, 0);
    forall k | 0 <= k < |q| ensures body[k] == q[k] {
    }
    assert body[..e] == q[..e];
  }

  /** What to put behind a query whose first run should be missed: its last run must not stand in for it. */
  function Behind(alnum: char -> bool, q: string): string
    requires q != ""
  {
    var last := q[|q| - 1];
    if KindOf(alnum, last) != Other && RunEnd(alnum, q, 0) < |q| && LastRun(alnum, q) == FirstRun(alnum, q) then [last] else ""
  }

  lemma LastIsNotFirst(alnum: char -> bool, q: string, c: nat)
    requires q != "" && KindOf(alnum, q[0]) != Other
    requires var body := [q[0]] + q + Behind(alnum, q); IsRun(alnum, body, c, |body|) && c > 0
    ensures ([q[0]] + q + Behind(alnum, q))[c..] != FirstRun(alnum, q)
  {
    var x, y := [q[0]], Behind(alnum, q);
    if y != "" {
      LastRunLonger(alnum, q, x, c);
    } else {
      assert x + q + y == x + q;
      LastRunSame(alnum, q, x, c);
      WholeRun(alnum, q, x, c);
    }
  }

  /** A run of the body that starts behind its first character leaves the query more than one run. */
  lemma WholeRun(alnum: char -> bool, q: string, x: string, c: nat)
    requires Beside(q, x, "") && x != "" && IsRun(alnum, x + q, c, |x + q|) && c > 0
    ensures RunEnd(alnum, q, 0) < |q| && KindOf(alnum, q[|q| - 1]) != Other
  {
    var body := x + q;
    assert body[0] == q[0] && body[|body| - 1] == q[|q| - 1];
    assert forall k :: 0 <= k < |q| ==> body[k + 1] == q[k];
  }

  lemma UnsafeLeftMisses(alnum: char -> bool, q: string)
    requires !LeftSafe(alnum, q)
    ensures !FoundIn(alnum, q, [q[0]], Behind(alnum, q))
  {
    var x, y, e, t := [q[0]], Behind(alnum, q), RunEnd(alnum, q, 0), FirstRun(alnum, q);
    var body := x + q + y;
    assert IsRun(alnum, q, 0, e);
    FirstRunIs(alnum, q, e);
    FilledRunTerm(alnum, q, 0, e);
    forall c: nat, d: nat | IsRun(alnum, body, c, d) && (c == 0 || d == |body|) ensures body[c..d] != t {
      if c == 0 {
        FirstRunLonger(alnum, q, y, d);
      } else {
        LastIsNotFirst(alnum, q, c);
        assert body[c..d] == body[c..];
      }
    }
    Missed(alnum, q, x, y, t);
    TermsAreRunTerms(alnum, q);
    TermsAreRunTerms(alnum, body);
  }

  /** What to put in front of a query whose last run should be missed. */
  function InFront(alnum: char -> bool, q: string): string
    requires q != ""
  {
    if KindOf(alnum, q[0]) != Other && LastRun(alnum, q) == FirstRun(alnum, q) then [q[0]] else ""
  }

  lemma FirstIsNotLast(alnum: char -> bool, q: string, d: nat)
    requires q != "" && KindOf(alnum, q[|q| - 1]) != Other
    requires var body := InFront(alnum, q) + q + [q[|q| - 1]]; IsRun(alnum, body, 0, d) && d < |body|
    ensures (InFront(alnum, q) + q + [q[|q| - 1]])[..d] != LastRun(alnum, q)
  {
    var x, y := InFront(alnum, q), [q[|q| - 1]];
    if x != "" {
      FirstRunLonger(alnum, q, y, d);
    } else {
      assert x + q + y == q + y;
      FirstRunSame(alnum, q, y, d);
      assert (q + y)[0] == q[0];
    }
  }

  lemma UnsafeRightMisses(alnum: char -> bool, q: string)
    requires !RightSafe(alnum, q)
    ensures !FoundIn(alnum, q, InFront(alnum, q), [q[|q| - 1]])
  {
    var x, y, s, t := InFront(alnum, q), [q[|q| - 1]], RunStart(alnum, q, |q| - 1), LastRun(alnum, q);
    var body := x + q + y;
    assert IsRun(alnum, q, s, |q|);
    LastRunIs(alnum, q, s);
    assert q[s..|q|] == q[s..];
    FilledRunTerm(alnum, q, s, |q|);
    forall c: nat, d: nat | IsRun(alnum, body, c, d) && (c == 0 || d == |body|) ensures body[c..d] != t {
      if d == |body| {
        LastRunLonger(alnum, q, x, c);
      } else {
        FirstIsNotLast(alnum, q, d);
        assert body[c..d] == body[..d];
      }
    }
    Missed(alnum, q, x, y, t);
    TermsAreRunTerms(alnum, q);
    TermsAreRunTerms(alnum, body);
  }

  /**
   An "all" query finds every body that contains it, just when each of its ends is
   neither letter nor CJK character, or a pair of CJK characters, or the run at
   that end also stands inside the query.
   */
  lemma FoundEverywhereIff(alnum: char -> bool, q: string)
    ensures FoundEverywhere(alnum, q) <==> LeftSafe(alnum, q) && RightSafe(alnum, q)
  {
    if !LeftSafe(alnum, q) {
      UnsafeLeftMisses(alnum, q);
    } else if !RightSafe(alnum, q) {
      UnsafeRightMisses(alnum, q);
    } else {
      forall x, y ensures FoundIn(alnum, q, x, y) {
        SafeIsFound(alnum, q, x, y);
      }
    }
  }
}
