/**
 The line patterns of the writing audit, modelled by hand: headings, reference
 headings, footnotes and table rows, and how trailing space affects them.
 */
module Markdown {
  import opened Wrappers
  import opened Text

  // ----- stripping facts -----

  lemma {:induction false} RStripPadded(s: string, pad: string)
    requires Blank(pad)
    ensures RStrip(s + pad) == RStrip(s)
  {
    if pad == [] {
      assert s + pad == s;
    } else {
      assert pad[|pad| - 1] in pad;
      assert (s + pad)[..|s + pad| - 1] == s + pad[..|pad| - 1];
      RStripPadded(s, pad[..|pad| - 1]);
    }
  }

  lemma StripPadded(s: string, pad: string)
    requires Blank(pad)
    ensures Strip(s + pad) == Strip(s)
  {
    RStripPadded(s, pad);
  }

  // ----- headings -----

  /** The run of '#' at the start of a line. */
  function Hashes(line: string): (n: nat)
    ensures n <= |line|
    ensures forall k :: 0 <= k < n ==> line[k] == '#'
    ensures n < |line| ==> line[n] != '#'
  {
    if line == [] || line[0] != '#' then 0 else 1 + Hashes(line[1..])
  }

  /**
   A match of ^(#{1,6})\s+(.+?)\s*$ and the stripped second group.  When only
   space follows the marks, one space character must be left over for the
   group, so two are needed and the title is empty.
   */
  function ParseHeading(line: string): Option<(nat, string)> {
    var h := Hashes(line);
    if h == 0 || h > 6 || h == |line| || !IsSpace(line[h]) then None
    else if Strip(line[h..]) != "" then Some((h, Strip(line[h..])))
    else if |line| - h >= 2 then Some((h, ""))
    else None
  }

  /** A line of one to six marks and at least two characters of space, nothing else. */
  predicate IsBare(line: string) {
    1 <= Hashes(line) <= 6 && |line| - Hashes(line) >= 2 && Blank(line[Hashes(line)..])
  }

  /** The marks are counted the same in any prefix that reaches past them. */
  lemma {:induction false} HashesOfPrefix(line: string, n: nat)
    requires Hashes(line) <= n <= |line|
    ensures Hashes(line[..n]) == Hashes(line)
  {
    if line != [] && line[0] == '#' {
      assert line[..n][1..] == line[1..][..n - 1];
      HashesOfPrefix(line[1..], n - 1);
    }
  }

  lemma HashesOfRStrip(line: string)
    ensures Hashes(line) <= |RStrip(line)|
    ensures Hashes(RStrip(line)) == Hashes(line)
  {
    var r, h := RStrip(line), Hashes(line);
    RStripShape(line);
    if |r| < |line| {
      assert line[|r|] in line[|r|..];
    }
    assert line[..|r|] == r;
    HashesOfPrefix(line, |r|);
  }

  /** A line whose marks end where its visible text ends. */
  lemma HeadingOfMarks(line: string)
    requires Hashes(line) == |RStrip(line)|
    ensures ParseHeading(RStrip(line)) == None
    ensures ParseHeading(line) == if IsBare(line) then Some((Hashes(line), "")) else None
  {
    var h := Hashes(line);
    HashesOfRStrip(line);
    RStripShape(line);
    StripShape(line[h..]);
    assert line[h..] == line[|RStrip(line)|..];
    if h < |line| {
      assert line[h] in line[h..];
    }
  }

  /** What follows a position inside the visible text strips the same. */
  lemma VisibleAfter(line: string, h: nat)
    requires h < |RStrip(line)|
    ensures Strip(line[h..]) == Strip(RStrip(line)[h..]) && Strip(line[h..]) != ""
    ensures line[h] == RStrip(line)[h]
  {
    var r := RStrip(line);
    RStripShape(line);
    assert line[h..] == r[h..] + line[|r|..];
    StripPadded(r[h..], line[|r|..]);
    StripShape(r[h..]);
    assert r[|r| - 1] in r[h..];
  }

  /** A line with visible text after its marks. */
  lemma HeadingWithText(line: string)
    requires Hashes(line) < |RStrip(line)|
    ensures !IsBare(line) && ParseHeading(RStrip(line)) == ParseHeading(line)
  {
    HashesOfRStrip(line);
    VisibleAfter(line, Hashes(line));
    StripShape(line[Hashes(line)..]);
  }

  /** Trimming keeps every heading except a bare one, which stops being a heading. */
  lemma HeadingOfRStrip(line: string)
    ensures ParseHeading(RStrip(line)) == if IsBare(line) then None else ParseHeading(line)
    ensures IsBare(line) ==> ParseHeading(line) == Some((Hashes(line), ""))
  {
    HashesOfRStrip(line);
    if Hashes(line) == |RStrip(line)| {
      HeadingOfMarks(line);
    } else {
      HeadingWithText(line);
    }
  }

  lemma BlankIsNotHeading(line: string)
    requires Blank(line)
    ensures ParseHeading(line) == None && !IsBare(line)
  {
    if line != [] {
      assert line[0] in line;
    }
  }

  // ----- titles -----

  /** Simple case folding of the letters the patterns use. */
  function Fold(c: char): char {
    if 'A' <= c <= 'Z' then (c as int + 32) as char
    else if c == '\U{17F}' then 's'
    else if c == '\U{130}' || c == '\U{131}' then 'i'
    else c
  }

  predicate FoldsTo(s: string, lower: string) {
    |s| == |lower| && forall k :: 0 <= k < |s| ==> Fold(s[k]) == lower[k]
  }

  const ABSTRACT_CN := "\U{6458}\U{8981}"
  const REFERENCES_CN := "\U{53C2}\U{8003}\U{6587}\U{732E}"

  /** ^(摘要|Abstract)$, ignoring case. */
  predicate IsAbstractTitle(title: string) {
    title == ABSTRACT_CN || FoldsTo(title, "abstract")
  }

  /** ^(#{1,6})\s*(参考文献|References|Bibliography)\s*$ on the stripped line, ignoring case. */
  predicate IsReferenceHeading(line: string) {
    var s := Strip(line);
    var h := Hashes(s);
    var title := LStrip(s[h..]);
    1 <= h <= 6 && (title == REFERENCES_CN || FoldsTo(title, "references") || FoldsTo(title, "bibliography"))
  }

  // ----- footnotes -----

  function FirstClose(line: string, from: nat): (j: nat)
    requires from <= |line|
    ensures from <= j <= |line|
    ensures j < |line| ==> line[j] == ']'
    ensures forall k :: from <= k < j ==> line[k] != ']'
    decreases |line| - from
  {
    if from == |line| || line[from] == ']' then from else FirstClose(line, from + 1)
  }

  /** Where a label that starts with "[^" at `i` is closed, if it has text. */
  function LabelEnd(line: string, i: nat): (j: Option<nat>)
    ensures j.Some? ==> i + 3 <= j.value < |line| && line[j.value] == ']'
  {
    if i + 2 >= |line| || line[i] != '[' || line[i + 1] != '^' then None
    else
      var j := FirstClose(line, i + 2);
      if j == |line| || j == i + 2 then None else Some(j)
  }

  predicate ColonAt(line: string, k: nat) {
    k < |line| && line[k] == ':'
  }

  /** The reference \[\^([^\]]+)\](?!:) that starts at `i`, as its closing bracket. */
  function ReferenceAt(line: string, i: nat): (j: Option<nat>)
    ensures j.Some? ==> i + 3 <= j.value < |line|
  {
    var end := LabelEnd(line, i);
    if end.Some? && !ColonAt(line, end.value + 1) then end else None
  }

  /** The labels of all references, scanning left to right without overlap. */
  function ReferenceLabels(line: string, i: nat): set<string>
    decreases |line| - i
  {
    if i >= |line| then {}
    else match ReferenceAt(line, i)
      case Some(j) => {Strip(line[i + 2..j])} + ReferenceLabels(line, j + 1)
      case None => ReferenceLabels(line, i + 1)
  }

  /** The label of ^\[\^([^\]]+)\]: on the stripped line. */
  function DefinitionLabel(line: string): Option<string> {
    var s := Strip(line);
    match LabelEnd(s, 0)
    case Some(j) => if ColonAt(s, j + 1) then Some(Strip(s[2..j])) else None
    case None => None
  }

  lemma {:induction false} FirstClosePadded(r: string, pad: string, from: nat)
    requires Blank(pad) && from <= |r|
    ensures FirstClose(r + pad, from) == if FirstClose(r, from) < |r| then FirstClose(r, from) else |r + pad|
    decreases |r| - from
  {
    if from == |r| {
      forall k | from <= k < |r + pad| ensures (r + pad)[k] != ']' {
        assert (r + pad)[k] == pad[k - |r|] && pad[k - |r|] in pad;
      }
    } else if r[from] != ']' {
      FirstClosePadded(r, pad, from + 1);
    }
  }

  lemma LabelEndPadded(r: string, pad: string, i: nat)
    requires Blank(pad) && i < |r|
    ensures LabelEnd(r + pad, i) == LabelEnd(r, i)
  {
    if i + 1 < |r| {
      if i + 2 <= |r| {
        FirstClosePadded(r, pad, i + 2);
      }
    } else if pad != [] {
      assert (r + pad)[i + 1] == pad[0] && pad[0] in pad;
    }
  }

  lemma ColonPadded(r: string, pad: string, k: nat)
    requires Blank(pad)
    ensures ColonAt(r + pad, k) == ColonAt(r, k)
  {
    if |r| <= k < |r + pad| {
      assert (r + pad)[k] == pad[k - |r|] && pad[k - |r|] in pad;
    }
  }

  lemma {:induction false} NoReferencesInSpace(line: string, i: nat)
    requires i <= |line| && forall k :: i <= k < |line| ==> IsSpace(line[k])
    ensures ReferenceLabels(line, i) == {}
    decreases |line| - i
  {
    if i < |line| {
      assert ReferenceAt(line, i) == None;
      NoReferencesInSpace(line, i + 1);
    }
  }

  lemma ReferenceAtPadded(r: string, pad: string, i: nat)
    requires Blank(pad) && i < |r|
    ensures ReferenceAt(r + pad, i) == ReferenceAt(r, i)
    ensures ReferenceAt(r, i).Some? ==>
              (r + pad)[i + 2..ReferenceAt(r, i).value] == r[i + 2..ReferenceAt(r, i).value]
  {
    LabelEndPadded(r, pad, i);
    if LabelEnd(r, i).Some? {
      ColonPadded(r, pad, LabelEnd(r, i).value + 1);
    }
  }

  /** Trailing space holds no footnote reference. */
  lemma {:induction false} ReferencesPadded(r: string, pad: string, i: nat)
    requires Blank(pad) && i <= |r|
    ensures ReferenceLabels(r + pad, i) == ReferenceLabels(r, i)
    decreases |r| - i
  {
    if i < |r| {
      ReferenceAtPadded(r, pad, i);
      var end := ReferenceAt(r, i);
      ReferencesPadded(r, pad, if end.Some? then end.value + 1 else i + 1);
    } else {
      forall k | i <= k < |r + pad| ensures IsSpace((r + pad)[k]) {
        assert (r + pad)[k] == pad[k - i] && pad[k - i] in pad;
      }
      NoReferencesInSpace(r + pad, i);
    }
  }

  lemma ReferencesOfRStrip(line: string)
    ensures ReferenceLabels(RStrip(line), 0) == ReferenceLabels(line, 0)
  {
    RStripShape(line);
    assert line == RStrip(line) + line[|RStrip(line)|..];
    ReferencesPadded(RStrip(line), line[|RStrip(line)|..], 0);
  }

  lemma BlankHasNoFootnote(line: string)
    requires Blank(line)
    ensures ReferenceLabels(line, 0) == {} && DefinitionLabel(line) == None
  {
    forall k | 0 <= k < |line| ensures IsSpace(line[k]) {
      assert line[k] in line;
    }
    NoReferencesInSpace(line, 0);
    StripShape(line);
  }

  // ----- tables, quotations, bibliography entries -----

  predicate IsTableRow(line: string) {
    var s := Strip(line);
    s != [] && s[0] == '|'
  }

  /** The two curly quotation marks. */
  predicate IsQuoteMark(c: char) {
    c == '\U{201C}' || c == '\U{201D}'
  }

  function QuoteMarks(s: string): nat {
    if s == [] then 0 else (if IsQuoteMark(s[0]) then 1 else 0) + QuoteMarks(s[1..])
  }

  /** A line the bibliography counts: not blank and not starting with '#'. */
  predicate IsEntry(line: string) {
    var s := Strip(line);
    s != [] && s[0] != '#'
  }

  lemma {:induction false} QuoteMarksConcat(a: string, b: string)
    ensures QuoteMarks(a + b) == QuoteMarks(a) + QuoteMarks(b)
  {
    if a == [] {
      assert a + b == b;
    } else {
      assert (a + b)[1..] == a[1..] + b;
      QuoteMarksConcat(a[1..], b);
    }
  }

  lemma {:induction false} BlankHasNoQuotes(pad: string)
    requires Blank(pad)
    ensures QuoteMarks(pad) == 0
  {
    if pad != [] {
      assert pad[0] in pad;
      BlankHasNoQuotes(pad[1..]);
    }
  }

  lemma QuotesOfRStrip(line: string)
    ensures QuoteMarks(RStrip(line)) == QuoteMarks(line)
  {
    var r := RStrip(line);
    RStripShape(line);
    assert line == r + line[|r|..];
    QuoteMarksConcat(r, line[|r|..]);
    BlankHasNoQuotes(line[|r|..]);
  }

  /** A bare heading line strips to its marks. */
  lemma BareStrips(line: string)
    requires IsBare(line)
    ensures Strip(line) == line[..Hashes(line)] && !Blank(line)
  {
    var h := Hashes(line);
    assert line == line[..h] + line[h..];
    StripPadded(line[..h], line[h..]);
    RStripFixed(line[..h]);
    assert line[0] in line;
  }

  /** A bare heading line is neither blank, nor an entry, nor a row, nor a reference heading or footnote. */
  lemma BareLineIsPlain(line: string)
    requires IsBare(line)
    ensures !Blank(line) && !IsEntry(line) && !IsTableRow(line) && !IsReferenceHeading(line)
    ensures DefinitionLabel(line) == None
  {
    BareStrips(line);
    HashesOfPrefix(line, Hashes(line));
    assert LStrip(line[..Hashes(line)][Hashes(line)..]) == "";
  }
}
