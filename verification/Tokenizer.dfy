/**
 Search terms.  Latin and numeric runs become one term each, CJK runs become
 overlapping pairs; terms are listed once.  The text is taken as already
 NFKC-normalized and case-folded, and `alnum` stands for str.isalnum.
 */
module Tokenizer {
  import opened Wrappers
  import opened Text
  import opened Lines

  predicate IsCjk(c: char) {
    '\U{3400}' <= c <= '\U{4DBF}' || '\U{4E00}' <= c <= '\U{9FFF}' || '\U{F900}' <= c <= '\U{FAFF}'
  }

  datatype Kind = Cjk | Word | Other

  function KindOf(alnum: char -> bool, c: char): Kind {
    if IsCjk(c) then Cjk else if alnum(c) then Word else Other
  }

  /** Letters and digits are not space. */
  ghost predicate Sane(alnum: char -> bool) {
    forall c :: alnum(c) ==> !IsSpace(c)
  }

  /** The overlapping pairs of a run. */
  function Pairs(run: string): seq<string> {
    if |run| < 2 then [] else seq(|run| - 1, k requires 0 <= k < |run| - 1 => [run[k], run[k + 1]])
  }

  /** The terms of one maximal run of a kind. */
  function TermsOfRun(kind: Kind, run: string): seq<string> {
    if kind == Cjk && |run| >= 2 then Pairs(run) else [run]
  }

  /** A maximal run of word or of CJK characters. */
  ghost predicate IsRun(alnum: char -> bool, text: string, a: nat, b: nat) {
    && a < b <= |text|
    && KindOf(alnum, text[a]) != Other
    && (forall k :: a <= k < b ==> KindOf(alnum, text[k]) == KindOf(alnum, text[a]))
    && (a > 0 ==> KindOf(alnum, text[a - 1]) != KindOf(alnum, text[a]))
    && (b < |text| ==> KindOf(alnum, text[b]) != KindOf(alnum, text[a]))
  }

  /** The terms of text[r.0..r.1]. */
  function RunTerms(alnum: char -> bool, text: string, r: (nat, nat)): seq<string> {
    if r.0 < r.1 <= |text| then TermsOfRun(KindOf(alnum, text[r.0]), text[r.0..r.1]) else []
  }

  /** `t` is a term of the maximal run text[a..b]. */
  ghost predicate IsRunTerm(alnum: char -> bool, text: string, a: nat, b: nat, t: string) {
    IsRun(alnum, text, a, b) && t in RunTerms(alnum, text, (a, b))
  }

  /** The reference definition: a term is a term of some maximal run. */
  ghost predicate IsTerm(alnum: char -> bool, text: string, t: string) {
    exists a: nat, b: nat :: IsRunTerm(alnum, text, a, b, t)
  }

  /** A character of the other kind, or of neither kind, ends the buffered run text[start..i]. */
  predicate Flushes(alnum: char -> bool, text: string, start: nat, i: nat)
    requires start <= i < |text|
  {
    var kind := KindOf(alnum, text[i]);
    kind == Other || (start < i && kind != KindOf(alnum, text[start]))
  }

  /** Where the buffered run starts once text[i] is read. */
  function NextStart(alnum: char -> bool, text: string, start: nat, i: nat): (next: nat)
    requires start <= i < |text|
    ensures next <= i + 1
  {
    if KindOf(alnum, text[i]) == Other then i + 1 else if Flushes(alnum, text, start, i) then i else start
  }

  /** The buffer, unless it is empty. */
  function Flushed(start: nat, i: nat): seq<(nat, nat)> {
    if start < i then [(start, i)] else []
  }

  /** What reading text[i] flushes. */
  function Emitted(alnum: char -> bool, text: string, start: nat, i: nat): seq<(nat, nat)>
    requires start <= i < |text|
  {
    if Flushes(alnum, text, start, i) then Flushed(start, i) else []
  }

  /** The runs in order of appearance, where text[start..i] is the buffered run. */
  function Runs(alnum: char -> bool, text: string, start: nat, i: nat): seq<(nat, nat)>
    requires start <= i <= |text|
    decreases |text| - i
  {
    if i == |text| then Flushed(start, i)
    else Emitted(alnum, text, start, i) + Runs(alnum, text, NextStart(alnum, text, start, i), i + 1)
  }

  /** The terms of the runs, in order, with repetitions. */
  function TermsOf(alnum: char -> bool, text: string, runs: seq<(nat, nat)>): seq<string> {
    if runs == [] then [] else RunTerms(alnum, text, runs[0]) + TermsOf(alnum, text, runs[1..])
  }

  /** Appends the terms that are not yet listed. */
  function AppendNew(tokens: seq<string>, more: seq<string>): seq<string>
    decreases |more|
  {
    if more == [] then tokens else AppendNew(Listed(tokens, more[0]), more[1..])
  }

  function Listed(tokens: seq<string>, t: string): seq<string> {
    if t in tokens then tokens else tokens + [t]
  }

  /** The distinct terms of a text. */
  function Terms(alnum: char -> bool, text: string): seq<string> {
    AppendNew([], TermsOf(alnum, text, Runs(alnum, text, 0, 0)))
  }

  // ----- the two-buffer loop -----

  lemma {:induction false} AppendNewConcat(tokens: seq<string>, a: seq<string>, b: seq<string>)
    ensures AppendNew(tokens, a + b) == AppendNew(AppendNew(tokens, a), b)
    decreases |a|
  {
    if a == [] {
      assert a + b == b;
    } else {
      assert (a + b)[1..] == a[1..] + b;
      AppendNewConcat(Listed(tokens, a[0]), a[1..], b);
    }
  }

  method FlushCjk(tokens: seq<string>, buffer: string) returns (r: seq<string>)
    ensures r == if buffer == "" then tokens else AppendNew(tokens, TermsOfRun(Cjk, buffer))
  {
    r := tokens;
    if buffer == "" {
      return;
    }
    if |buffer| == 1 {
      if buffer !in r {
        r := r + [buffer];
      }
      assert [buffer][1..] == [];
      return;
    }
    for k := 0 to |buffer| - 1
      invariant AppendNew(r, Pairs(buffer)[k..]) == AppendNew(tokens, Pairs(buffer))
    {
      var pair := buffer[k..k + 2];
      assert pair == Pairs(buffer)[k];
      assert Pairs(buffer)[k..][1..] == Pairs(buffer)[k + 1..];
      if pair !in r {
        r := r + [pair];
      }
    }
  }

  method FlushLatin(tokens: seq<string>, buffer: string) returns (r: seq<string>)
    ensures r == if buffer == "" then tokens else AppendNew(tokens, [buffer])
  {
    r := tokens;
    if buffer != "" && buffer !in tokens {
      r := tokens + [buffer];
    }
    assert [buffer][1..] == [];
  }

  lemma {:induction false} TermsOfConcat(alnum: char -> bool, text: string, a: seq<(nat, nat)>, b: seq<(nat, nat)>)
    ensures TermsOf(alnum, text, a + b) == TermsOf(alnum, text, a) + TermsOf(alnum, text, b)
    decreases |a|
  {
    if a == [] {
      assert a + b == b;
    } else {
      assert (a + b)[1..] == a[1..] + b;
      TermsOfConcat(alnum, text, a[1..], b);
    }
  }

  lemma TermsOfOne(alnum: char -> bool, text: string, r: (nat, nat))
    ensures TermsOf(alnum, text, [r]) == RunTerms(alnum, text, r)
  {
    assert [r][1..] == [];
  }

  /** The terms still to come after text[start..i] is buffered. */
  function Pending(alnum: char -> bool, text: string, start: nat, i: nat): seq<string>
    requires start <= i <= |text|
  {
    TermsOf(alnum, text, Runs(alnum, text, start, i))
  }

  /** One step of the scan appends what it emits and goes on. */
  lemma ScanStep(alnum: char -> bool, text: string, start: nat, i: nat, list: seq<string>)
    requires start <= i < |text|
    ensures AppendNew(list, Pending(alnum, text, start, i))
            == AppendNew(AppendNew(list, TermsOf(alnum, text, Emitted(alnum, text, start, i))),
                         Pending(alnum, text, NextStart(alnum, text, start, i), i + 1))
  {
    var next := NextStart(alnum, text, start, i);
    TermsOfConcat(alnum, text, Emitted(alnum, text, start, i), Runs(alnum, text, next, i + 1));
    AppendNewConcat(list, TermsOf(alnum, text, Emitted(alnum, text, start, i)), Pending(alnum, text, next, i + 1));
  }

  /** The buffers hold text[start..i], in the buffer of its kind; at most one is non-empty. */
  ghost predicate Buffers(alnum: char -> bool, text: string, start: nat, i: nat, latin: string, cjk: string) {
    && start <= i <= |text| && (latin == "" || cjk == "") && latin + cjk == text[start..i]
    && (latin != "" ==> KindOf(alnum, text[start]) == Word)
    && (cjk != "" ==> KindOf(alnum, text[start]) == Cjk)
  }

  /** Flushing both buffers emits what the scan flushes. */
  method FlushBoth(alnum: char -> bool, text: string, ghost start: nat, ghost i: nat, list: seq<string>,
                   latin: string, cjk: string) returns (r: seq<string>)
    requires Buffers(alnum, text, start, i, latin, cjk)
    ensures r == AppendNew(list, TermsOf(alnum, text, Flushed(start, i)))
  {
    TermsOfOne(alnum, text, (start, i));
    r := FlushCjk(list, cjk);
    r := FlushLatin(r, latin);
    assert latin == "" ==> latin + cjk == cjk;
    assert cjk == "" ==> latin + cjk == latin;
  }

  /** Runs the two buffers over the text. */
  method NormalizeSearchTerms(alnum: char -> bool, text: string) returns (joined: string, tokens: seq<string>)
    ensures tokens == Terms(alnum, text) && joined == Join(" ", tokens)
  {
    var latin, cjk := "", "";
    tokens := [];
    ghost var start := 0;
    for i := 0 to |text|
      invariant Buffers(alnum, text, start, i, latin, cjk)
      invariant AppendNew(tokens, Pending(alnum, text, start, i)) == Terms(alnum, text)
    {
      ScanStep(alnum, text, start, i, tokens);
      tokens, latin, cjk, start := ReadCharacter(alnum, text, start, i, tokens, latin, cjk);
    }
    tokens := FlushBoth(alnum, text, start, |text|, tokens, latin, cjk);
    joined := Join(" ", tokens);
  }

  /** The loop body: a character of the other kind, or of neither, flushes first. */
  method ReadCharacter(alnum: char -> bool, text: string, ghost start: nat, i: nat, before: seq<string>,
                       latinBefore: string, cjkBefore: string)
    returns (tokens: seq<string>, latin: string, cjk: string, ghost next: nat)
    requires i < |text| && Buffers(alnum, text, start, i, latinBefore, cjkBefore)
    ensures Buffers(alnum, text, next, i + 1, latin, cjk)
    ensures next == NextStart(alnum, text, start, i)
    ensures tokens == AppendNew(before, TermsOf(alnum, text, Emitted(alnum, text, start, i)))
  {
    tokens, latin, cjk, next := before, latinBefore, cjkBefore, start;
    var c := text[i];
    TermsOfOne(alnum, text, (start, i));
    assert text[start..i + 1] == text[start..i] + [c];
    assert latin == "" ==> latin + cjk == cjk;
    assert cjk == "" ==> latin + cjk == latin;
    if IsCjk(c) {
      tokens := FlushLatin(tokens, latin);
      next := if latin != "" then i else start;
      latin := "";
      cjk := cjk + [c];
    } else if alnum(c) {
      tokens := FlushCjk(tokens, cjk);
      next := if cjk != "" then i else start;
      cjk := "";
      latin := latin + [c];
    } else {
      tokens := FlushBoth(alnum, text, start, i, tokens, latin, cjk);
      next := i + 1;
      latin, cjk := "", "";
    }
  }

  // ----- the terms are those of the maximal runs -----

  /** Positions where a run may begin. */
  ghost predicate Boundary(alnum: char -> bool, text: string, start: nat) {
    start == 0 || start >= |text| || KindOf(alnum, text[start - 1]) != KindOf(alnum, text[start])
    || KindOf(alnum, text[start]) == Other
  }

  /** text[start..i] is the beginning of one run, or empty. */
  ghost predicate Buffered(alnum: char -> bool, text: string, start: nat, i: nat) {
    && start <= i <= |text| && Boundary(alnum, text, start)
    && forall k :: start <= k < i ==> KindOf(alnum, text[k]) == KindOf(alnum, text[start]) != Other
  }

  /** The runs not yet flushed. */
  ghost predicate IsRunFrom(alnum: char -> bool, text: string, start: nat, r: (nat, nat)) {
    start <= r.0 && IsRun(alnum, text, r.0, r.1)
  }

  lemma SameRun(alnum: char -> bool, text: string, start: nat, i: nat, r: (nat, nat))
    requires start <= r.0 < i && IsRun(alnum, text, start, i) && IsRun(alnum, text, r.0, r.1)
    ensures r == (start, i)
  {
  }

  /** A buffered run that stops here is maximal. */
  lemma BufferIsRun(alnum: char -> bool, text: string, start: nat, i: nat)
    requires Buffered(alnum, text, start, i) && start < i
    requires i < |text| ==> KindOf(alnum, text[i]) != KindOf(alnum, text[start])
    ensures IsRun(alnum, text, start, i)
  {
  }

  /** What reading text[i] flushes, and the runs behind it, are the runs from `start` on. */
  lemma EmittedThenRest(alnum: char -> bool, text: string, start: nat, i: nat, r: (nat, nat))
    requires Buffered(alnum, text, start, i) && i < |text|
    ensures IsRunFrom(alnum, text, start, r)
            <==> r in Emitted(alnum, text, start, i) || IsRunFrom(alnum, text, NextStart(alnum, text, start, i), r)
  {
    if Flushes(alnum, text, start, i) && start < i {
      BufferIsRun(alnum, text, start, i);
      if IsRunFrom(alnum, text, start, r) && r.0 < i {
        SameRun(alnum, text, start, i, r);
      }
    }
  }

  lemma ReadKeepsBuffered(alnum: char -> bool, text: string, start: nat, i: nat)
    requires Buffered(alnum, text, start, i) && i < |text|
    ensures Buffered(alnum, text, NextStart(alnum, text, start, i), i + 1)
  {
  }

  lemma LastBuffer(alnum: char -> bool, text: string, start: nat, r: (nat, nat))
    requires Buffered(alnum, text, start, |text|)
    ensures r in Flushed(start, |text|) <==> IsRunFrom(alnum, text, start, r)
  {
    if start < |text| {
      BufferIsRun(alnum, text, start, |text|);
      if IsRunFrom(alnum, text, start, r) {
        SameRun(alnum, text, start, |text|, r);
      }
    }
  }

  /** The scan finds the maximal runs and nothing else. */
  lemma {:induction false} RunsAreMaximal(alnum: char -> bool, text: string, start: nat, i: nat, r: (nat, nat))
    requires Buffered(alnum, text, start, i)
    ensures r in Runs(alnum, text, start, i) <==> IsRunFrom(alnum, text, start, r)
    decreases |text| - i
  {
    if i == |text| {
      LastBuffer(alnum, text, start, r);
    } else {
      ReadKeepsBuffered(alnum, text, start, i);
      RunsAreMaximal(alnum, text, NextStart(alnum, text, start, i), i + 1, r);
      EmittedThenRest(alnum, text, start, i, r);
    }
  }

  lemma {:induction false} TermsOfMembers(alnum: char -> bool, text: string, runs: seq<(nat, nat)>, t: string)
    ensures t in TermsOf(alnum, text, runs) <==> exists r :: r in runs && t in RunTerms(alnum, text, r)
    decreases |runs|
  {
    if runs != [] {
      TermsOfMembers(alnum, text, runs[1..], t);
      assert forall r :: r in runs <==> r == runs[0] || r in runs[1..];
    }
  }

  lemma ScannedIffTerm(alnum: char -> bool, text: string, t: string)
    ensures t in TermsOf(alnum, text, Runs(alnum, text, 0, 0)) <==> IsTerm(alnum, text, t)
  {
    var runs := Runs(alnum, text, 0, 0);
    TermsOfMembers(alnum, text, runs, t);
    if IsTerm(alnum, text, t) {
      var a: nat, b: nat :| IsRunTerm(alnum, text, a, b, t);
      RunsAreMaximal(alnum, text, 0, 0, (a, b));
    }
    if r :| r in runs && t in RunTerms(alnum, text, r) {
      RunsAreMaximal(alnum, text, 0, 0, r);
      assert IsRunTerm(alnum, text, r.0, r.1, t);
    }
  }

  lemma {:induction false} AppendNewMembers(tokens: seq<string>, more: seq<string>, t: string)
    ensures t in AppendNew(tokens, more) <==> t in tokens || t in more
    decreases |more|
  {
    if more != [] {
      AppendNewMembers(Listed(tokens, more[0]), more[1..], t);
    }
  }

  lemma {:induction false} AppendNewDistinct(tokens: seq<string>, more: seq<string>)
    requires Distinct(tokens)
    ensures Distinct(AppendNew(tokens, more))
    decreases |more|
  {
    if more != [] {
      AppendNewDistinct(Listed(tokens, more[0]), more[1..]);
    }
  }

  /** The listed terms are distinct and are exactly the terms of the maximal runs. */
  lemma TermsAreRunTerms(alnum: char -> bool, text: string)
    ensures Distinct(Terms(alnum, text))
    ensures forall t :: t in Terms(alnum, text) <==> IsTerm(alnum, text, t)
  {
    var runs := Runs(alnum, text, 0, 0);
    AppendNewDistinct([], TermsOf(alnum, text, runs));
    forall t ensures t in Terms(alnum, text) <==> IsTerm(alnum, text, t) {
      AppendNewMembers([], TermsOf(alnum, text, runs), t);
      ScannedIffTerm(alnum, text, t);
    }
  }

  // ----- an "all" query cannot miss an aligned occurrence -----

  function RunStart(alnum: char -> bool, text: string, i: nat): (a: nat)
    requires i < |text|
    ensures a <= i && forall k :: a <= k <= i ==> KindOf(alnum, text[k]) == KindOf(alnum, text[i])
    ensures a > 0 ==> KindOf(alnum, text[a - 1]) != KindOf(alnum, text[i])
  {
    if i == 0 || KindOf(alnum, text[i - 1]) != KindOf(alnum, text[i]) then i else RunStart(alnum, text, i - 1)
  }

  function RunEnd(alnum: char -> bool, text: string, i: nat): (b: nat)
    requires i < |text|
    ensures i < b <= |text| && forall k :: i <= k < b ==> KindOf(alnum, text[k]) == KindOf(alnum, text[i])
    ensures b < |text| ==> KindOf(alnum, text[b]) != KindOf(alnum, text[i])
    decreases |text| - i
  {
    if i + 1 == |text| || KindOf(alnum, text[i + 1]) != KindOf(alnum, text[i]) then i + 1
    else RunEnd(alnum, text, i + 1)
  }

  /** Two neighbours that fall into one run. */
  predicate Merges(alnum: char -> bool, left: string, right: string) {
    left != "" && right != "" && KindOf(alnum, left[|left| - 1]) == KindOf(alnum, right[0]) != Other
  }

  /** The query's first run is at least two CJK characters. */
  predicate StartsWithCjkPair(q: string) {
    |q| >= 2 && IsCjk(q[0]) && IsCjk(q[1])
  }

  predicate EndsWithCjkPair(q: string) {
    |q| >= 2 && IsCjk(q[|q| - 1]) && IsCjk(q[|q| - 2])
  }

  /** The occurrence of `q` between `x` and `y` respects term boundaries. */
  predicate Aligned(alnum: char -> bool, x: string, q: string, y: string) {
    && (Merges(alnum, x, q) ==> StartsWithCjkPair(q))
    && (Merges(alnum, q, y) ==> EndsWithCjkPair(q))
  }

  lemma BodyAt(x: string, q: string, y: string, k: nat)
    requires k < |x + q + y|
    ensures (x + q + y)[k] == if k < |x| then x[k] else if k < |x| + |q| then q[k - |x|] else y[k - |x| - |q|]
  {
  }

  /** A run of the query that reaches further left in the body starts with a CJK pair. */
  lemma GrowsLeft(alnum: char -> bool, x: string, q: string, y: string, a: nat, b: nat)
    requires IsRun(alnum, q, a, b) && Aligned(alnum, x, q, y) && |x| + a > 0
    requires KindOf(alnum, (x + q + y)[|x| + a - 1]) == KindOf(alnum, q[a])
    ensures KindOf(alnum, q[a]) == Cjk && b - a >= 2
  {
    BodyAt(x, q, y, |x| + a - 1);
    assert a == 0 && Merges(alnum, x, q);
  }

  /** A run of the query that reaches further right in the body ends with a CJK pair. */
  lemma GrowsRight(alnum: char -> bool, x: string, q: string, y: string, a: nat, b: nat)
    requires IsRun(alnum, q, a, b) && Aligned(alnum, x, q, y) && |x| + b < |x + q + y|
    requires KindOf(alnum, (x + q + y)[|x| + b]) == KindOf(alnum, q[a])
    ensures KindOf(alnum, q[a]) == Cjk && b - a >= 2
  {
    BodyAt(x, q, y, |x| + b);
    assert KindOf(alnum, q[b - 1]) == KindOf(alnum, q[a]);
    assert b == |q| && Merges(alnum, q, y);
  }

  /** A run of the query lies inside a run of the body, and either fills it or is a longer CJK run. */
  lemma RunInBody(alnum: char -> bool, x: string, q: string, y: string, a: nat, b: nat)
    returns (c: nat, d: nat)
    requires IsRun(alnum, q, a, b) && Aligned(alnum, x, q, y)
    ensures var body := x + q + y;
            && IsRun(alnum, body, c, d) && KindOf(alnum, body[c]) == KindOf(alnum, q[a])
            && c <= |x| + a && |x| + b <= d && body[|x| + a..|x| + b] == q[a..b]
            && ((c == |x| + a && d == |x| + b) || (KindOf(alnum, q[a]) == Cjk && b - a >= 2))
  {
    var body, at := x + q + y, |x| + a;
    BodyAt(x, q, y, at);
    c, d := RunStart(alnum, body, at), RunEnd(alnum, body, at);
    if d < |x| + b {
      BodyAt(x, q, y, d);
    }
    if c < at {
      assert KindOf(alnum, body[at - 1]) == KindOf(alnum, body[at]);
      GrowsLeft(alnum, x, q, y, a, b);
    }
    if |x| + b < d {
      assert KindOf(alnum, body[|x| + b]) == KindOf(alnum, body[at]);
      GrowsRight(alnum, x, q, y, a, b);
    }
    BodySlice(x, q, y, a, b);
  }

  lemma BodySlice(x: string, q: string, y: string, a: nat, b: nat)
    requires a <= b <= |q|
    ensures (x + q + y)[|x| + a..|x| + b] == q[a..b]
  {
    forall k | 0 <= k < b - a ensures (x + q + y)[|x| + a..|x| + b][k] == q[a..b][k] {
      BodyAt(x, q, y, |x| + a + k);
    }
  }

  lemma PairsInLongerRun(run: string, longer: string, at: nat, t: string)
    requires at + |run| <= |longer| && longer[at..at + |run|] == run && |run| >= 2 && t in Pairs(run)
    ensures t in Pairs(longer)
  {
    var k :| 0 <= k < |Pairs(run)| && Pairs(run)[k] == t;
    CharacterAt(run, longer, at, k);
    CharacterAt(run, longer, at, k + 1);
    assert Pairs(longer)[at + k] == t;
  }

  lemma CharacterAt(run: string, longer: string, at: nat, k: nat)
    requires at + |run| <= |longer| && longer[at..at + |run|] == run && k < |run|
    ensures longer[at + k] == run[k]
  {
    assert longer[at..at + |run|][k] == longer[at + k];
  }

  lemma RunTermInBody(alnum: char -> bool, x: string, q: string, y: string, a: nat, b: nat, t: string)
    requires IsRunTerm(alnum, q, a, b, t) && Aligned(alnum, x, q, y)
    ensures IsTerm(alnum, x + q + y, t)
  {
    var body, kind, run := x + q + y, KindOf(alnum, q[a]), q[a..b];
    var c, d := RunInBody(alnum, x, q, y, a, b);
    LongerRunTerm(kind, body, c, d, |x| + a, run, t);
    assert IsRunTerm(alnum, body, c, d, t);
  }

  lemma LongerRunTerm(kind: Kind, body: string, c: nat, d: nat, at: nat, run: string, t: string)
    requires c <= at && at + |run| <= d <= |body| && body[at..at + |run|] == run && t in TermsOfRun(kind, run)
    requires (c == at && d == at + |run|) || (kind == Cjk && |run| >= 2)
    ensures t in TermsOfRun(kind, body[c..d])
  {
    if kind == Cjk && |run| >= 2 {
      SliceWithin(body, c, d, at - c, at - c + |run|);
      PairsInLongerRun(run, body[c..d], at - c, t);
    }
  }

  lemma SliceWithin(s: string, c: nat, d: nat, a: nat, b: nat)
    requires c <= d <= |s| && a <= b <= d - c
    ensures s[c..d][a..b] == s[c + a..c + b]
  {
    forall k | 0 <= k < b - a ensures s[c..d][a..b][k] == s[c + a..c + b][k] {
      assert s[c..d][a..b][k] == s[c..d][a + k];
    }
  }

  /**
   Wherever a query occurs in a body with its ends on term boundaries, or on
   CJK runs of two characters or more, every query term is a term of the body.
   */
  lemma AlignedOccurrenceMatchesAll(alnum: char -> bool, x: string, q: string, y: string)
    requires Aligned(alnum, x, q, y)
    ensures forall t :: t in Terms(alnum, q) ==> t in Terms(alnum, x + q + y)
  {
    TermsAreRunTerms(alnum, q);
    TermsAreRunTerms(alnum, x + q + y);
    forall t | IsTerm(alnum, q, t) ensures IsTerm(alnum, x + q + y, t) {
      var a: nat, b: nat :| IsRunTerm(alnum, q, a, b, t);
      RunTermInBody(alnum, x, q, y, a, b, t);
    }
  }

  /** A single CJK character beside another is not found: the body lists only pairs. */
  lemma UnalignedOccurrenceCanMiss(alnum: char -> bool)
    ensures var q, body := "\U{4E00}", "\U{4E00}\U{4E01}";
            && !Aligned(alnum, "", q, "\U{4E01}") && body == "" + q + "\U{4E01}"
            && q in Terms(alnum, q) && q !in Terms(alnum, body)
  {
    var q, body := "\U{4E00}", "\U{4E00}\U{4E01}";
    assert q[0..1] == q;
    assert Runs(alnum, q, 0, 0) == Runs(alnum, q, 0, 1) == [(0, 1)];
    TermsOfOne(alnum, q, (0, 1));
    AppendNewMembers([], [q], q);
    assert Runs(alnum, body, 0, 0) == Runs(alnum, body, 0, 1) == Runs(alnum, body, 0, 2) == [(0, 2)];
    TermsOfOne(alnum, body, (0, 2));
    AppendNewMembers([], Pairs(body[0..2]), q);
  }

  // ----- terms read back -----

  /** A term by itself: one kind, and at most two CJK characters. */
  predicate IsUnit(alnum: char -> bool, t: string) {
    && t != "" && KindOf(alnum, t[0]) != Other
    && (forall k :: 0 <= k < |t| ==> KindOf(alnum, t[k]) == KindOf(alnum, t[0]))
    && (KindOf(alnum, t[0]) == Cjk ==> |t| <= 2)
  }

  lemma RunIsUniform(alnum: char -> bool, text: string, a: nat, b: nat, k: nat)
    requires IsRun(alnum, text, a, b) && k < b - a
    ensures |text[a..b]| == b - a && KindOf(alnum, text[a..b][k]) == KindOf(alnum, text[a])
  {
    assert text[a..b][k] == text[a + k];
  }

  lemma RunTermIsUnit(alnum: char -> bool, text: string, a: nat, b: nat, t: string)
    requires IsRunTerm(alnum, text, a, b, t)
    ensures IsUnit(alnum, t)
  {
    var run, kind := text[a..b], KindOf(alnum, text[a]);
    forall k: nat | k < |run| ensures KindOf(alnum, run[k]) == kind {
      RunIsUniform(alnum, text, a, b, k);
    }
    if kind == Cjk && |run| >= 2 {
      var k :| 0 <= k < |Pairs(run)| && Pairs(run)[k] == t;
    }
  }

  lemma TermsAreUnits(alnum: char -> bool, text: string, t: string)
    requires t in Terms(alnum, text)
    ensures IsUnit(alnum, t)
  {
    TermsAreRunTerms(alnum, text);
    var a: nat, b: nat :| IsRunTerm(alnum, text, a, b, t);
    RunTermIsUnit(alnum, text, a, b, t);
  }

  /** `t` stands in the text at `at`. */
  ghost predicate StandsAt(text: string, at: nat, t: string) {
    at + |t| <= |text| && text[at..at + |t|] == t
  }

  lemma UnitKinds(alnum: char -> bool, text: string, at: nat, t: string, k: nat)
    requires IsUnit(alnum, t) && StandsAt(text, at, t) && k < |t|
    ensures KindOf(alnum, text[at + k]) == KindOf(alnum, t[0]) == KindOf(alnum, text[at]) != Other
  {
    assert text[at..at + |t|][k] == text[at + k] && text[at..at + |t|][0] == text[at];
  }

  /** A unit is buffered whole. */
  lemma {:induction false} RunsUnit(alnum: char -> bool, text: string, at: nat, t: string, k: nat)
    requires IsUnit(alnum, t) && StandsAt(text, at, t) && k <= |t|
    ensures Runs(alnum, text, at, at + k) == Runs(alnum, text, at, at + |t|)
    decreases |t| - k
  {
    if k < |t| {
      UnitKinds(alnum, text, at, t, k);
      RunsUnit(alnum, text, at, t, k + 1);
      assert Emitted(alnum, text, at, at + k) == [] && NextStart(alnum, text, at, at + k) == at;
    }
  }

  lemma UnitTerms(alnum: char -> bool, text: string, at: nat, t: string)
    requires IsUnit(alnum, t) && StandsAt(text, at, t)
    ensures RunTerms(alnum, text, (at, at + |t|)) == [t]
  {
    UnitKinds(alnum, text, at, t, 0);
    if |t| == 2 {
      assert t == [t[0], t[1]] && Pairs(t)[0] == t;
    }
  }

  /** A unit before a space is emitted and the scan goes on behind the space. */
  lemma RunsUnitThenSpace(alnum: char -> bool, text: string, at: nat, t: string)
    requires Sane(alnum) && IsUnit(alnum, t) && StandsAt(text, at, t)
    requires at + |t| < |text| && text[at + |t|] == ' '
    ensures Runs(alnum, text, at, at) == [(at, at + |t|)] + Runs(alnum, text, at + |t| + 1, at + |t| + 1)
  {
    RunsUnit(alnum, text, at, t, 0);
    assert IsSpace(' ') && KindOf(alnum, text[at + |t|]) == Other;
    assert Emitted(alnum, text, at, at + |t|) == [(at, at + |t|)];
  }

  lemma PendingUnit(alnum: char -> bool, text: string, at: nat, t: string)
    requires Sane(alnum) && IsUnit(alnum, t) && StandsAt(text, at, t)
    requires at + |t| < |text| && text[at + |t|] == ' '
    ensures Pending(alnum, text, at, at) == [t] + Pending(alnum, text, at + |t| + 1, at + |t| + 1)
  {
    RunsUnitThenSpace(alnum, text, at, t);
    UnitTerms(alnum, text, at, t);
    var run := (at, at + |t|);
    TermsOfConcat(alnum, text, [run], Runs(alnum, text, at + |t| + 1, at + |t| + 1));
    TermsOfOne(alnum, text, run);
  }

  lemma PendingLastUnit(alnum: char -> bool, text: string, at: nat, t: string)
    requires IsUnit(alnum, t) && at <= |text| && text[at..] == t
    ensures Pending(alnum, text, at, at) == [t]
  {
    assert StandsAt(text, at, t);
    RunsUnit(alnum, text, at, t, 0);
    assert Runs(alnum, text, at, at + |t|) == [(at, at + |t|)];
    UnitTerms(alnum, text, at, t);
    TermsOfOne(alnum, text, (at, at + |t|));
  }

  lemma {:induction false} TermsOfJoined(alnum: char -> bool, text: string, at: nat, ts: seq<string>)
    requires Sane(alnum) && forall k :: 0 <= k < |ts| ==> IsUnit(alnum, ts[k])
    requires at <= |text| && text[at..] == Join(" ", ts)
    ensures Pending(alnum, text, at, at) == ts
    decreases |ts|
  {
    if |ts| == 1 {
      PendingLastUnit(alnum, text, at, ts[0]);
    } else if |ts| >= 2 {
      var t, rest := ts[0], Join(" ", ts[1..]);
      JoinedHead(text, at, t, rest);
      PendingUnit(alnum, text, at, t);
      TermsOfJoined(alnum, text, at + |t| + 1, ts[1..]);
    }
  }

  lemma JoinedHead(text: string, at: nat, t: string, rest: string)
    requires at <= |text| && text[at..] == t + " " + rest
    ensures StandsAt(text, at, t) && at + |t| < |text| && text[at + |t|] == ' ' && text[at + |t| + 1..] == rest
  {
    var tail := text[at..];
    assert text[at..at + |t|] == tail[..|t|] == t;
    assert text[at + |t|] == tail[|t|];
    assert text[at + |t| + 1..] == tail[|t| + 1..] == rest;
  }

  lemma {:induction false} AppendDistinct(tokens: seq<string>, more: seq<string>)
    requires Distinct(tokens + more)
    ensures AppendNew(tokens, more) == tokens + more
    decreases |more|
  {
    if more != [] {
      assert forall k :: 0 <= k < |tokens| ==> (tokens + more)[k] == tokens[k];
      assert (tokens + more)[|tokens|] == more[0];
      assert tokens + more == (tokens + [more[0]]) + more[1..];
      AppendDistinct(tokens + [more[0]], more[1..]);
    }
  }

  /** Tokenizing the joined terms of a text gives the same terms in the same order. */
  lemma TokenizingIsIdempotent(alnum: char -> bool, text: string)
    requires Sane(alnum)
    ensures Terms(alnum, Join(" ", Terms(alnum, text))) == Terms(alnum, text)
  {
    var ts := Terms(alnum, text);
    forall k | 0 <= k < |ts| ensures IsUnit(alnum, ts[k]) {
      TermsAreUnits(alnum, text, ts[k]);
    }
    var text' := Join(" ", ts);
    assert text'[0..] == text';
    TermsOfJoined(alnum, text', 0, ts);
    TermsAreRunTerms(alnum, text);
    assert [] + ts == ts;
    AppendDistinct([], ts);
  }
}
