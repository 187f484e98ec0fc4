/**
 The public draft: writing annotations removed, lines right-trimmed, runs of
 blank lines cut to two, one line ending throughout.
 */
module PublicDraft {
  import opened Wrappers
  import opened Text
  import opened Lines

  // ----- annotations -----

  predicate StartsAt(part: string, s: string, i: nat) {
    i + |part| <= |s| && s[i..i + |part|] == part
  }

  /** The end of the first "-->" at or after `i`. */
  function CommentClose(s: string, i: nat): (j: Option<nat>)
    requires i <= |s|
    ensures j.Some? ==> i + 3 <= j.value <= |s|
    decreases |s| - i
  {
    if StartsAt("-->", s, i) then Some(i + 3)
    else if i == |s| then None
    else CommentClose(s, i + 1)
  }

  /** The end of the match of <!--\s*writing:.*?--> that starts at `i`. */
  function AnnotationEnd(s: string, i: nat): (j: Option<nat>)
    ensures j.Some? ==> i < j.value <= |s|
  {
    if !StartsAt("<!--", s, i) then None
    else
      var body := SkipSpace(s, i + 4);
      if !StartsAt("writing:", s, body) then None else CommentClose(s, body + 8)
  }

  function LineFeeds(s: string): nat {
    if s == [] then 0 else (if s[0] == '\n' then 1 else 0) + LineFeeds(s[1..])
  }

  function Repeat(c: char, n: nat): (r: string)
    ensures |r| == n && forall k :: 0 <= k < n ==> r[k] == c
  {
    if n == 0 then "" else [c] + Repeat(c, n - 1)
  }

  /** The text from `i` on, each annotation replaced by the line feeds it held. */
  function StripAnnotations(s: string, i: nat := 0): string
    decreases |s| - i
  {
    if i >= |s| then ""
    else match AnnotationEnd(s, i)
      case Some(j) => Repeat('\n', LineFeeds(s[i..j])) + StripAnnotations(s, j)
      case None => [s[i]] + StripAnnotations(s, i + 1)
  }

  lemma {:induction false} LineFeedsConcat(a: string, b: string)
    ensures LineFeeds(a + b) == LineFeeds(a) + LineFeeds(b)
  {
    if a == [] {
      assert a + b == b;
    } else {
      assert (a + b)[1..] == a[1..] + b;
      LineFeedsConcat(a[1..], b);
    }
  }

  lemma {:induction false} LineFeedsRepeat(n: nat)
    ensures LineFeeds(Repeat('\n', n)) == n
  {
    if n > 0 {
      LineFeedsRepeat(n - 1);
    }
  }

  /** Removing annotations keeps every line feed, so later lines keep their numbers. */
  lemma {:induction false} StrippingKeepsLineFeeds(s: string, i: nat)
    requires i <= |s|
    ensures LineFeeds(StripAnnotations(s, i)) == LineFeeds(s[i..])
    decreases |s| - i
  {
    if i < |s| {
      match AnnotationEnd(s, i)
      case Some(j) =>
        StrippingKeepsLineFeeds(s, j);
        LineFeedsRepeat(LineFeeds(s[i..j]));
        LineFeedsConcat(Repeat('\n', LineFeeds(s[i..j])), StripAnnotations(s, j));
        assert s[i..] == s[i..j] + s[j..];
        LineFeedsConcat(s[i..j], s[j..]);
      case None =>
        StrippingKeepsLineFeeds(s, i + 1);
        assert ([s[i]] + StripAnnotations(s, i + 1))[1..] == StripAnnotations(s, i + 1);
        assert s[i..][1..] == s[i + 1..];
    }
  }

  // ----- lines -----

  /** Trimmed lines, where `run` blank lines precede and a run is cut to two. */
  function PublicLines(lines: seq<string>, run: nat): seq<string> {
    if lines == [] then []
    else if Blank(lines[0]) then
      if run >= 2 then PublicLines(lines[1..], run + 1) else [""] + PublicLines(lines[1..], run + 1)
    else [RStrip(lines[0])] + PublicLines(lines[1..], 0)
  }

  /** The draft as a function of the source text. */
  function Draft(text: string, ending: LineEnding): string {
    NormalizeLineEndings(Join("\n", PublicLines(SplitLines(StripAnnotations(text)), 0)), ending)
  }

  /** What one line contributes, and how the run of blanks continues. */
  function Contribution(line: string, run: nat): seq<string> {
    if !Blank(line) then [RStrip(line)] else if run >= 2 then [] else [""]
  }

  /** The first line's effect, read off the result. */
  lemma PublicLinesHead(lines: seq<string>, run: nat)
    requires lines != []
    ensures var p := PublicLines(lines, run);
            var rest := PublicLines(lines[1..], if Blank(lines[0]) then run + 1 else 0);
            if Blank(lines[0]) && run >= 2 then p == rest
            else p != [] && p[0] == (if Blank(lines[0]) then "" else RStrip(lines[0])) && p[1..] == rest
  {
  }

  lemma PublicLinesStep(lines: seq<string>, k: nat, run: nat)
    requires k < |lines|
    ensures PublicLines(lines[k..], run)
            == Contribution(lines[k], run) + PublicLines(lines[k + 1..], if Blank(lines[k]) then run + 1 else 0)
  {
    assert lines[k..][1..] == lines[k + 1..];
  }

  /** One pass over the lines with the length of the current run of blanks. */
  method TrimLines(lines: seq<string>) returns (normalized: seq<string>, collapsed: nat)
    ensures normalized == PublicLines(lines, 0)
    ensures collapsed == |lines| - |normalized|
  {
    normalized := [];
    var blankRun := 0;
    collapsed := 0;
    for k := 0 to |lines|
      invariant normalized + PublicLines(lines[k..], blankRun) == PublicLines(lines, 0)
      invariant |normalized| + collapsed == k
    {
      var line := lines[k];
      ghost var before, run := normalized, blankRun;
      StripShape(line);
      if |Strip(line)| == 0 {
        blankRun := blankRun + 1;
        if blankRun > 2 {
          collapsed := collapsed + 1;
        } else {
          normalized := normalized + [""];
        }
      } else {
        blankRun := 0;
        normalized := normalized + [RStrip(line)];
      }
      assert normalized == before + Contribution(line, run);
      PublicLinesStep(lines, k, run);
      Associate(before, Contribution(line, run), PublicLines(lines[k + 1..], blankRun));
    }
  }

  /** Builds the draft and reports how many blank lines were dropped. */
  method BuildPublicDraft(text: string, ending: LineEnding) returns (draft: string, collapsed: nat)
    ensures draft == Draft(text, ending)
    ensures var lines := SplitLines(StripAnnotations(text)); collapsed == |lines| - |PublicLines(lines, 0)|
  {
    var lines := SplitLines(StripAnnotations(text));
    var normalized;
    normalized, collapsed := TrimLines(lines);
    draft := NormalizeLineEndings(Join("\n", normalized), ending);
  }

  lemma Associate<T>(a: seq<T>, b: seq<T>, c: seq<T>)
    ensures a + (b + c) == (a + b) + c
  {
  }

  /** Trimming neither adds line breaks nor leaves three blank lines in a row. */
  lemma {:induction false} PublicLinesUnbroken(lines: seq<string>, run: nat)
    requires Unbroken(lines)
    ensures Unbroken(PublicLines(lines, run))
  {
    if lines != [] {
      PublicLinesUnbroken(lines[1..], if Blank(lines[0]) then run + 1 else 0);
      RStripShape(lines[0]);
      assert IsLine(RStrip(lines[0])) by {
        forall c | c in RStrip(lines[0]) ensures !IsBreak(c) {
          assert c in lines[0];
        }
      }
      if !Blank(lines[0]) {
        UnbrokenCons(RStrip(lines[0]), PublicLines(lines[1..], 0));
      } else if run < 2 {
        UnbrokenCons("", PublicLines(lines[1..], run + 1));
      }
    }
  }

  /** No line of the draft ends in space, and no run of blank lines exceeds two. */
  predicate Tidy(lines: seq<string>) {
    lines != [] ==>
      && (lines[0] == "" || !IsSpace(lines[0][|lines[0]| - 1]))
      && !(|lines| >= 3 && lines[0] == "" && lines[1] == "" && lines[2] == "")
      && Tidy(lines[1..])
  }

  lemma {:induction false} PublicLinesTidy(lines: seq<string>, run: nat)
    ensures var p := PublicLines(lines, run);
            && Tidy(p)
            && (run >= 1 ==> |p| < 2 || p[0] != "" || p[1] != "")
            && (run >= 2 ==> p == [] || p[0] != "")
  {
    if lines != [] {
      PublicLinesTidy(lines[1..], if Blank(lines[0]) then run + 1 else 0);
      PublicLinesHead(lines, run);
      RStripShape(lines[0]);
    }
  }

  ghost predicate AllBlank(lines: seq<string>) {
    forall k :: 0 <= k < |lines| ==> Blank(lines[k])
  }

  function EmptyLines(n: nat): seq<string> {
    seq(n, i => "")
  }

  lemma EmptyLinesCons(n: nat)
    ensures [""] + EmptyLines(n) == EmptyLines(n + 1)
  {
  }

  /** How many of `n` blank lines stay after a run of blank ones. */
  function Kept(n: nat, run: nat): nat {
    Min(n, if run >= 2 then 0 else 2 - run)
  }

  lemma {:induction false} BlanksAreCut(blanks: seq<string>, rest: seq<string>, run: nat)
    requires AllBlank(blanks) && (rest == [] || !Blank(rest[0]))
    ensures PublicLines(blanks + rest, run) == EmptyLines(Kept(|blanks|, run)) + PublicLines(rest, 0)
  {
    if blanks == [] {
      assert blanks + rest == rest;
    } else {
      assert (blanks + rest)[1..] == blanks[1..] + rest;
      BlanksAreCut(blanks[1..], rest, run + 1);
      if run < 2 {
        EmptyLinesCons(Kept(|blanks| - 1, run + 1));
        Associate([""], EmptyLines(Kept(|blanks| - 1, run + 1)), PublicLines(rest, 0));
      }
    }
  }

  lemma VisibleLineStays(line: string, rest: seq<string>)
    requires !Blank(line)
    ensures PublicLines([line] + rest, 0) == [RStrip(line)] + PublicLines(rest, 0)
  {
    assert ([line] + rest)[1..] == rest;
  }

  /** Every run of blank lines is cut to two empty ones, and every other line stays, right-trimmed. */
  lemma RunsAreCut(blanks: seq<string>, line: string, rest: seq<string>)
    requires AllBlank(blanks) && !Blank(line)
    ensures PublicLines(blanks, 0) == EmptyLines(Min(|blanks|, 2))
    ensures PublicLines(blanks + [line] + rest, 0) == EmptyLines(Min(|blanks|, 2)) + [RStrip(line)] + PublicLines(rest, 0)
  {
    BlanksAreCut(blanks, [], 0);
    assert blanks + [] == blanks;
    BlanksAreCut(blanks, [line] + rest, 0);
    VisibleLineStays(line, rest);
    Associate(blanks, [line], rest);
    Associate(EmptyLines(Min(|blanks|, 2)), [RStrip(line)], PublicLines(rest, 0));
  }
}
