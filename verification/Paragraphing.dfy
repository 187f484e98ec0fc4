/**
 What the paragraphs of a text are, told without the scan that finds them, and
 what normalization does to line ends.
 */
module Paragraphing {
  import opened Text
  import opened Lines
  import opened Chunker

  // ----- line ends -----

  lemma {:induction false} UnifyAfterLine(line: string, rest: string)
    requires '\r' !in line
    ensures UnifyNewlines(line + rest) == line + UnifyNewlines(rest)
  {
    if line == "" {
      assert line + rest == rest;
    } else {
      assert line[0] in line && (line + rest)[1..] == line[1..] + rest;
      UnifyAfterLine(line[1..], rest);
      assert [line[0]] + (line[1..] + UnifyNewlines(rest)) == line + UnifyNewlines(rest);
    }
  }

  lemma {:induction false} NoReturnLeft(text: string)
    ensures '\r' !in UnifyNewlines(text)
  {
    if text != "" {
      NoReturnLeft(text[1..]);
      if |text| >= 2 {
        NoReturnLeft(text[2..]);
      }
    }
  }

  lemma SplitAtBreak(line: string, c: char, rest: string)
    requires IsLine(line) && IsBreak(c) && c != '\r'
    ensures SplitLines(line + [c] + rest) == [line] + SplitLines(rest)
  {
    var s := line + [c] + rest;
    assert s == line + ([c] + rest);
    FirstBreakAfter(line, [c] + rest);
    assert s[..|line|] == line && s[|line|..] == [c] + rest;
    assert ([c] + rest)[1..] == rest;
  }

  /** What stands behind the first line break, and the break once the ends are unified. */
  lemma UnifiedBreak(tail: string) returns (c: char)
    requires tail != "" && IsBreak(tail[0])
    ensures IsBreak(c) && c != '\r' && UnifyNewlines(tail) == [c] + UnifyNewlines(tail[BreakLength(tail)..])
  {
    c := if tail[0] == '\r' then '\n' else tail[0];
  }

  lemma SplitUnified(line: string, tail: string)
    requires IsLine(line) && tail != "" && IsBreak(tail[0])
    ensures SplitLines(UnifyNewlines(line + tail)) == [line] + SplitLines(UnifyNewlines(tail[BreakLength(tail)..]))
  {
    var rest := UnifyNewlines(tail[BreakLength(tail)..]);
    var c := UnifiedBreak(tail);
    assert IsBreak('\r');
    UnifyAfterLine(line, tail);
    assert line + ([c] + rest) == line + [c] + rest;
    SplitAtBreak(line, c, rest);
  }

  lemma LineBefore(text: string, n: nat)
    requires n <= |text| && forall k :: 0 <= k < n ==> !IsBreak(text[k])
    ensures IsLine(text[..n])
  {
    forall c | c in text[..n] ensures !IsBreak(c) {
      var k :| 0 <= k < n && text[..n][k] == c;
      assert text[k] == c;
    }
  }

  lemma SplitBroken(line: string, tail: string)
    requires IsLine(line) && tail != "" && IsBreak(tail[0])
    ensures SplitLines(line + tail) == [line] + SplitLines(tail[BreakLength(tail)..])
  {
    FirstBreakAfter(line, tail);
    assert (line + tail)[..|line|] == line && (line + tail)[|line|..] == tail;
  }

  lemma BrokenKeeps(line: string, tail: string)
    requires IsLine(line) && tail != "" && IsBreak(tail[0])
    requires SplitLines(UnifyNewlines(tail[BreakLength(tail)..])) == SplitLines(tail[BreakLength(tail)..])
    ensures SplitLines(UnifyNewlines(line + tail)) == SplitLines(line + tail)
  {
    SplitUnified(line, tail);
    SplitBroken(line, tail);
  }

  lemma SplitUnbroken(text: string)
    requires FirstBreak(text) == |text|
    ensures UnifyNewlines(text) == text
  {
    assert IsBreak('\r');
    assert text + "" == text;
    UnifyAfterLine(text, "");
  }

  lemma FirstLine(text: string) returns (line: string, tail: string)
    requires FirstBreak(text) < |text|
    ensures text == line + tail && IsLine(line) && tail != "" && IsBreak(tail[0])
  {
    line, tail := text[..FirstBreak(text)], text[FirstBreak(text)..];
    LineBefore(text, FirstBreak(text));
  }

  /** Unifying the line ends changes no line. */
  lemma {:induction false} UnifyingKeepsLines(text: string)
    ensures SplitLines(UnifyNewlines(text)) == SplitLines(text)
    decreases |text|
  {
    if FirstBreak(text) == |text| {
      SplitUnbroken(text);
    } else {
      var line, tail := FirstLine(text);
      UnifyingKeepsLines(tail[BreakLength(tail)..]);
      BrokenKeeps(line, tail);
    }
  }

  // ----- paragraphs -----

  /** Two line feeds in s[from..to] with nothing but space between them. */
  ghost predicate HasBreak(s: string, from: nat, to: nat) {
    exists i: nat, j: nat :: BreaksAt(s, from, to, i, j)
  }

  ghost predicate BreaksAt(s: string, from: nat, to: nat, i: nat, j: nat) {
    from <= i < j < to <= |s| && s[i] == '\n' && s[j] == '\n' && SpaceBetween(s, i, j)
  }

  /** A paragraph stands at `at`: after nothing but space, with visible ends and no break inside. */
  ghost predicate StandsAt(s: string, from: nat, p: string, at: nat) {
    SpaceBetween(s, from, at) && OccursAt(p, s, at) && HasVisibleEnds(p) && !HasBreak(s, at, at + |p|)
  }

  /** From `from` on the text is these paragraphs, each parted from the one before by a break. */
  ghost predicate Reads(s: string, from: nat, ps: seq<string>, first: bool)
    decreases |ps|, 1
  {
    if ps == [] then SpaceBetween(s, from, |s|) else exists at: nat :: ReadsAt(s, from, ps, first, at)
  }

  ghost predicate ReadsAt(s: string, from: nat, ps: seq<string>, first: bool, at: nat)
    requires ps != []
    decreases |ps|, 0
  {
    StandsAt(s, from, ps[0], at) && (first || HasBreak(s, from, at)) && Reads(s, at + |ps[0]|, ps[1..], false)
  }

  lemma WiderBreak(s: string, from: nat, to: nat, wideFrom: nat, wideTo: nat)
    requires HasBreak(s, from, to) && wideFrom <= from && to <= wideTo <= |s|
    ensures HasBreak(s, wideFrom, wideTo)
  {
    var i: nat, j: nat :| BreaksAt(s, from, to, i, j);
    assert BreaksAt(s, wideFrom, wideTo, i, j);
  }

  /** A paragraph ends where a break follows, or where nothing but space does. */
  lemma EndsThere(s: string, at: nat, end: nat, ps: seq<string>, q: string)
    requires at <= end <= |s| && HasVisibleEnds(q) && OccursAt(q, s, at) && !HasBreak(s, at, at + |q|)
    requires Reads(s, end, ps, false)
    ensures at + |q| <= end
  {
    var far := at + |q|;
    assert s[far - 1] == q[|q| - 1];
    if end < far && ps != [] {
      var next: nat :| ReadsAt(s, end, ps, false, next);
      assert s[next] == ps[0][0];
      if next < far {
        WiderBreak(s, end, next, at, far);
      }
    }
  }

  lemma SameStart(s: string, from: nat, p: string, at: nat, q: string, there: nat)
    requires StandsAt(s, from, p, at) && StandsAt(s, from, q, there)
    ensures at == there
  {
    assert s[at] == p[0] && s[there] == q[0];
  }

  lemma FirstIsSame(s: string, from: nat, ps: seq<string>, at: nat, qs: seq<string>, there: nat, first: bool)
    requires ps != [] && qs != [] && ReadsAt(s, from, ps, first, at) && ReadsAt(s, from, qs, first, there)
    ensures at == there && ps[0] == qs[0]
  {
    SameStart(s, from, ps[0], at, qs[0], there);
    EndsThere(s, at, at + |ps[0]|, ps[1..], qs[0]);
    EndsThere(s, at, at + |qs[0]|, qs[1..], ps[0]);
  }

  /** There is at most one way to read a text. */
  lemma {:induction false} ReadsOnlyOnce(s: string, from: nat, ps: seq<string>, qs: seq<string>, first: bool)
    requires Reads(s, from, ps, first) && Reads(s, from, qs, first)
    ensures ps == qs
    decreases |ps|
  {
    NothingToRead(s, from, ps, first);
    NothingToRead(s, from, qs, first);
    if ps != [] && qs != [] {
      var at: nat :| ReadsAt(s, from, ps, first, at);
      var there: nat :| ReadsAt(s, from, qs, first, there);
      FirstIsSame(s, from, ps, at, qs, there, first);
      ReadsOnlyOnce(s, at + |ps[0]|, ps[1..], qs[1..], false);
      assert ps == [ps[0]] + ps[1..] && qs == [qs[0]] + qs[1..];
    }
  }

  lemma NothingToRead(s: string, from: nat, ps: seq<string>, first: bool)
    requires Reads(s, from, ps, first)
    ensures ps != [] <==> !SpaceBetween(s, from, |s|)
  {
    if ps != [] {
      var at: nat :| ReadsAt(s, from, ps, first, at);
      assert s[at] == ps[0][0];
    }
  }

  // ----- what the splitting finds -----

  /** No paragraph break is matched at any place in s[start..i]. */
  ghost predicate Unmatched(s: string, start: nat, i: nat) {
    start <= i <= |s| && forall k :: start <= k < i ==> BreakEnd(s, k).None?
  }

  lemma {:induction false} LastNewline(s: string, from: nat, to: nat)
    requires from <= to <= |s|
    ensures match AfterLastNewline(s, from, to)
            case Some(j) => s[j - 1] == '\n'
            case None => forall k :: from <= k < to ==> s[k] != '\n'
  {
    if to > from && s[to - 1] != '\n' {
      LastNewline(s, from, to - 1);
    }
  }

  lemma {:induction false} SkipsAll(s: string, i: nat, j: nat)
    requires i <= j <= |s| && forall k :: i <= k < j ==> IsSpace(s[k])
    ensures j <= SkipSpace(s, i)
    decreases j - i
  {
    if i < j {
      SkipsAll(s, i + 1, j);
    }
  }

  lemma MatchIsBreak(s: string, i: nat)
    requires i < |s| && BreakEnd(s, i).Some?
    ensures HasBreak(s, i, BreakEnd(s, i).value)
  {
    var j := BreakEnd(s, i).value;
    LastNewline(s, i + 1, SkipSpace(s, i + 1));
    assert BreaksAt(s, i, j, i, j - 1);
  }

  lemma FeedsMatch(s: string, a: nat, b: nat)
    requires a < b < |s| && s[a] == '\n' && s[b] == '\n' && SpaceBetween(s, a, b)
    ensures BreakEnd(s, a).Some?
  {
    LastNewline(s, a + 1, SkipSpace(s, a + 1));
    SkipsAll(s, a + 1, b + 1);
  }

  lemma UnmatchedIsUnbroken(s: string, start: nat, i: nat)
    requires Unmatched(s, start, i)
    ensures !HasBreak(s, start, i)
  {
    forall a: nat, b: nat ensures !BreaksAt(s, start, i, a, b) {
      if BreaksAt(s, start, i, a, b) {
        FeedsMatch(s, a, b);
      }
    }
  }

  lemma LaterBreak(s: string, from: nat, to: nat, ps: seq<string>)
    requires from <= to && SpaceBetween(s, from, to) && HasBreak(s, from, to) && Reads(s, to, ps, true)
    ensures Reads(s, from, ps, false) && Reads(s, from, ps, true)
  {
    if ps != [] {
      var at: nat :| ReadsAt(s, to, ps, true, at);
      WiderBreak(s, from, to, from, at);
      assert ReadsAt(s, from, ps, false, at) && ReadsAt(s, from, ps, true, at);
    }
  }

  /** The last part, or one part and what follows its break. */
  lemma PartReads(s: string, start: nat, i: nat, rest: seq<string>)
    requires Unmatched(s, start, i) && Reads(s, i, rest, false)
    ensures var p := Strip(s[start..i]);
            Reads(s, start, (if p != "" then [p] else []) + rest, true)
  {
    var p := Strip(s[start..i]);
    var at := StrippedPart(s, start, i);
    UnmatchedIsUnbroken(s, start, i);
    if p == "" {
      assert [] + rest == rest;
      EarlierReads(s, start, i, rest);
    } else {
      if HasBreak(s, at, at + |p|) {
        WiderBreak(s, at, at + |p|, start, i);
      }
      EarlierReads(s, at + |p|, i, rest);
      assert ([p] + rest)[1..] == rest;
      assert ReadsAt(s, start, [p] + rest, true, at);
    }
  }

  lemma EarlierReads(s: string, from: nat, to: nat, ps: seq<string>)
    requires SpaceBetween(s, from, to) && Reads(s, to, ps, false)
    ensures Reads(s, from, ps, false) && Reads(s, from, ps, true)
  {
    if ps != [] {
      var at: nat :| ReadsAt(s, to, ps, false, at);
      WiderBreak(s, to, at, from, at);
      assert ReadsAt(s, from, ps, false, at) && ReadsAt(s, from, ps, true, at);
    }
  }

  lemma StrippedOne(part: string)
    ensures Stripped([part]) == (if Strip(part) != "" then [Strip(part)] else []) + []
  {
    assert [part][1..] == [];
  }

  lemma {:induction false} SplitReads(s: string, start: nat, i: nat)
    requires Unmatched(s, start, i)
    ensures Reads(s, start, Stripped(SplitBreaks(s, start, i)), true)
    decreases |s| - i
  {
    if i == |s| {
      PartReads(s, start, i, []);
      assert s[start..] == s[start..i];
      StrippedOne(s[start..i]);
    } else if BreakEnd(s, i).None? {
      SplitReads(s, start, i + 1);
    } else {
      var j := BreakEnd(s, i).value;
      var rest := SplitBreaks(s, j, j);
      SplitReads(s, j, j);
      MatchIsBreak(s, i);
      LaterBreak(s, i, j, Stripped(rest));
      PartReads(s, start, i, Stripped(rest));
      var parts := SplitBreaks(s, start, i);
      assert parts[0] == s[start..i] && parts[1..] == rest;
    }
  }

  /**
   The paragraphs of a text are the one list of visible pieces without a break
   that stand in it in order, parted by breaks.
   */
  lemma ParagraphsIff(s: string, ps: seq<string>)
    ensures ps == Paragraphs(s) <==> Reads(s, 0, ps, true)
  {
    SplitReads(s, 0, 0);
    if Reads(s, 0, ps, true) {
      ReadsOnlyOnce(s, 0, ps, Paragraphs(s), true);
    }
  }
}
