/**
 The checker as the source runs it: heading lists with line numbers, index
 ranges and flags.  Each loop computes the line-by-line function the parity
 theorem speaks about.
 */
module ParityChecker {
  import opened Wrappers
  import opened Text
  import opened Lines
  import opened Markdown
  import opened PublicDraft
  import opened PublicParity

  /** A heading with its one-based line number. */
  datatype Heading = Heading(level: nat, line: nat, title: string)

  type Parsed = seq<Option<(nat, string)>>

  function ParseAll(lines: seq<string>): (p: Parsed)
    ensures |p| == |lines| && forall k :: 0 <= k < |p| ==> p[k] == ParseHeading(lines[k])
  {
    seq(|lines|, k requires 0 <= k < |lines| => ParseHeading(lines[k]))
  }

  ghost predicate Listed(hs: seq<Heading>, k: nat) {
    exists i :: 0 <= i < |hs| && hs[i].line == k + 1
  }

  /** Each entry is what its line parses to. */
  ghost predicate EntriesParse(hs: seq<Heading>, p: Parsed) {
    forall i :: 0 <= i < |hs| ==>
      1 <= hs[i].line <= |p| && p[hs[i].line - 1] == Some((hs[i].level, hs[i].title))
  }

  ghost predicate InOrder(hs: seq<Heading>) {
    forall i, j :: 0 <= i < j < |hs| ==> hs[i].line < hs[j].line
  }

  ghost predicate AllListed(hs: seq<Heading>, p: Parsed) {
    forall k {:trigger Listed(hs, k)} :: 0 <= k < |p| && p[k].Some? ==> Listed(hs, k)
  }

  /** The list names every heading line, in order, with what it parses to. */
  ghost predicate ListsHeadings(hs: seq<Heading>, p: Parsed) {
    EntriesParse(hs, p) && InOrder(hs) && AllListed(hs, p)
  }

  function Entry(parsed: Option<(nat, string)>, line: nat): seq<Heading> {
    if parsed.Some? then [Heading(parsed.value.0, line, parsed.value.1)] else []
  }

  lemma EntriesParseStep(hs: seq<Heading>, p: Parsed, next: Option<(nat, string)>)
    requires EntriesParse(hs, p) && InOrder(hs)
    ensures EntriesParse(hs + Entry(next, |p| + 1), p + [next]) && InOrder(hs + Entry(next, |p| + 1))
  {
    var longer := hs + Entry(next, |p| + 1);
    forall i | 0 <= i < |longer|
      ensures 1 <= longer[i].line <= |p + [next]|
      ensures (p + [next])[longer[i].line - 1] == Some((longer[i].level, longer[i].title))
    {
      if i < |hs| {
        assert longer[i] == hs[i];
      }
    }
  }

  lemma AllListedStep(hs: seq<Heading>, p: Parsed, next: Option<(nat, string)>)
    requires AllListed(hs, p)
    ensures AllListed(hs + Entry(next, |p| + 1), p + [next])
  {
    var longer := hs + Entry(next, |p| + 1);
    forall k | 0 <= k < |p + [next]| && (p + [next])[k].Some? ensures Listed(longer, k) {
      if k < |p| {
        assert Listed(hs, k);
        var i :| 0 <= i < |hs| && hs[i].line == k + 1;
        assert longer[i] == hs[i];
      } else {
        assert longer[|hs|].line == k + 1;
      }
    }
  }

  method Headings(lines: seq<string>) returns (hs: seq<Heading>)
    ensures ListsHeadings(hs, ParseAll(lines))
  {
    hs := [];
    ghost var p := ParseAll(lines);
    for k := 0 to |lines|
      invariant ListsHeadings(hs, p[..k])
    {
      var parsed := ParseHeading(lines[k]);
      ghost var before := hs;
      if parsed.Some? {
        hs := hs + [Heading(parsed.value.0, k + 1, parsed.value.1)];
      }
      assert hs == before + Entry(parsed, k + 1);
      EntriesParseStep(before, p[..k], parsed);
      AllListedStep(before, p[..k], parsed);
      assert p[..k + 1] == p[..k] + [parsed];
    }
    assert p[..|lines|] == p;
  }

  /** A heading's contribution to the signature. */
  function SignatureEntry(parsed: Option<(nat, string)>, normal: string -> string): seq<(nat, string)> {
    if parsed.Some? && parsed.value.0 <= SIGNATURE_DEPTH then [(parsed.value.0, normal(parsed.value.1))] else []
  }

  lemma SignatureStep(lines: seq<string>, k: nat, normal: string -> string)
    requires k < |lines|
    ensures Signature(lines[k..], normal, true)
            == SignatureEntry(ParseHeading(lines[k]), normal) + Signature(lines[k + 1..], normal, true)
  {
    assert lines[k..][1..] == lines[k + 1..];
  }

  method HeadingSignature(lines: seq<string>, normal: string -> string) returns (signature: seq<(nat, string)>)
    ensures signature == Signature(lines, normal, true)
  {
    signature := [];
    for k := 0 to |lines|
      invariant signature + Signature(lines[k..], normal, true) == Signature(lines, normal, true)
    {
      SignatureStep(lines, k, normal);
      var parsed := ParseHeading(lines[k]);
      Associate(signature, SignatureEntry(parsed, normal), Signature(lines[k + 1..], normal, true));
      signature := signature + SignatureEntry(parsed, normal);
    }
  }

  predicate StopsAt(parsed: Option<(nat, string)>, level: nat) {
    parsed.Some? && parsed.value.0 <= level
  }

  /** The first line at or after `from` that ends a section of this level. */
  ghost function SectionEnd(p: Parsed, from: nat, level: nat): (n: nat)
    requires from <= |p|
    ensures from <= n <= |p|
    ensures n < |p| ==> StopsAt(p[n], level)
    ensures forall k :: from <= k < n ==> !StopsAt(p[k], level)
    decreases |p| - from
  {
    if from == |p| || StopsAt(p[from], level) then from else SectionEnd(p, from + 1, level)
  }

  /** The end of a section, found by walking the later headings. */
  method FindSectionEnd(ghost p: Parsed, total: nat, hs: seq<Heading>, at: nat, level: nat) returns (end: nat)
    requires total == |p| && ListsHeadings(hs, p) && at < |hs|
    ensures end == SectionEnd(p, hs[at].line, level)
  {
    for j := at + 1 to |hs|
      invariant forall i :: at < i < j ==> hs[i].level > level
    {
      if hs[j].level <= level {
        FirstStop(p, hs, at, j, level);
        return hs[j].line - 1;
      }
    }
    NoStop(p, hs, at, level);
    end := total;
  }

  lemma FirstStop(p: Parsed, hs: seq<Heading>, at: nat, j: nat, level: nat)
    requires ListsHeadings(hs, p) && at < j < |hs| && hs[j].level <= level
    requires forall i :: at < i < j ==> hs[i].level > level
    ensures SectionEnd(p, hs[at].line, level) == hs[j].line - 1
  {
    var end := SectionEnd(p, hs[at].line, level);
    assert hs[at].line < hs[j].line;
    assert StopsAt(p[hs[j].line - 1], level);
    assert end < hs[j].line - 1 ==> Listed(hs, end);
  }

  lemma NoStop(p: Parsed, hs: seq<Heading>, at: nat, level: nat)
    requires ListsHeadings(hs, p) && at < |hs|
    requires forall i :: at < i < |hs| ==> hs[i].level > level
    ensures SectionEnd(p, hs[at].line, level) == |p|
  {
    var end := SectionEnd(p, hs[at].line, level);
    assert end < |p| ==> Listed(hs, end);
  }

  lemma StopsAgree(line: string, level: nat)
    ensures Stops(line, level, true) == StopsAt(ParseHeading(line), level)
  {
  }

  /** A section is filled when some line before its end is visible. */
  lemma {:induction false} FilledBeforeEnd(lines: seq<string>, p: Parsed, from: nat, level: nat)
    requires p == ParseAll(lines) && from <= |lines|
    ensures SectionFilled(lines[from..], level, true)
            <==> exists k :: from <= k < SectionEnd(p, from, level) && !Blank(lines[k])
    decreases |lines| - from
  {
    if from < |lines| {
      assert lines[from..][1..] == lines[from + 1..];
      StopsAgree(lines[from], level);
      FilledBeforeEnd(lines, p, from + 1, level);
    }
  }

  /** Entries are counted up to the section's end. */
  lemma {:induction false} EntriesBeforeEnd(lines: seq<string>, p: Parsed, from: nat, level: nat)
    requires p == ParseAll(lines) && from <= |lines|
    ensures EntryCount(lines[from..], Some(level), true) == CountEntries(lines[from..SectionEnd(p, from, level)])
    decreases |lines| - from
  {
    if from < |lines| {
      assert lines[from..][1..] == lines[from + 1..];
      StopsAgree(lines[from], level);
      EntriesBeforeEnd(lines, p, from + 1, level);
      var end := SectionEnd(p, from, level);
      if end > from {
        assert lines[from..end] == [lines[from]] + lines[from + 1..end];
      }
    }
  }

  lemma {:induction false} EntriesToTheEnd(lines: seq<string>)
    ensures EntryCount(lines, None, true) == CountEntries(lines)
  {
    if lines != [] {
      EntriesToTheEnd(lines[1..]);
    }
  }

  function CountEntries(lines: seq<string>): nat {
    if lines == [] then 0 else (if IsEntry(lines[0]) then 1 else 0) + CountEntries(lines[1..])
  }

  /** The abstract's lines are those of the first parsed abstract heading. */
  predicate TitledAbstract(parsed: Option<(nat, string)>) {
    parsed.Some? && IsAbstractTitle(parsed.value.1)
  }

  /** Skipping lines that are not abstract headings. */
  lemma {:induction false} FirstAbstract(lines: seq<string>, k: nat)
    requires k <= |lines| && forall j :: 0 <= j < k ==> !IsAbstractHeading(lines[j])
    ensures AbstractFilled(lines, true) == AbstractFilled(lines[k..], true)
  {
    if k > 0 {
      FirstAbstract(lines, k - 1);
      assert lines[k - 1..][1..] == lines[k..];
    }
  }

  /** bool(_section_body_text(...).strip()) for the abstract pattern. */
  method AbstractIsFilled(lines: seq<string>) returns (filled: bool)
    ensures filled == AbstractFilled(lines, true)
  {
    var hs := Headings(lines);
    ghost var p := ParseAll(lines);
    for at := 0 to |hs|
      invariant forall i :: 0 <= i < at ==> !IsAbstractTitle(hs[i].title)
    {
      if IsAbstractTitle(hs[at].title) {
        AbstractAt(lines, p, hs, at);
        var end := FindSectionEnd(p, |lines|, hs, at, hs[at].level);
        filled := AnyVisible(lines, hs[at].line, end);
        FilledBeforeEnd(lines, p, hs[at].line, hs[at].level);
        return;
      }
    }
    AbstractNowhere(lines, p, hs);
    filled := false;
  }

  method AnyVisible(lines: seq<string>, from: nat, end: nat) returns (visible: bool)
    requires from <= end <= |lines|
    ensures visible <==> exists k :: from <= k < end && !Blank(lines[k])
  {
    for k := from to end
      invariant forall j :: from <= j < k ==> Blank(lines[j])
    {
      StripShape(lines[k]);
      if |Strip(lines[k])| != 0 {
        return true;
      }
    }
    visible := false;
  }

  lemma AbstractBefore(p: Parsed, hs: seq<Heading>, at: nat, k: nat)
    requires ListsHeadings(hs, p) && at <= |hs| && k < (if at < |hs| then hs[at].line - 1 else |p|)
    requires forall i :: 0 <= i < at ==> !IsAbstractTitle(hs[i].title)
    ensures !TitledAbstract(p[k])
  {
    if p[k].Some? {
      assert Listed(hs, k);
      var i :| 0 <= i < |hs| && hs[i].line == k + 1;
      assert i < at;
    }
  }

  lemma AbstractAt(lines: seq<string>, p: Parsed, hs: seq<Heading>, at: nat)
    requires p == ParseAll(lines) && ListsHeadings(hs, p) && at < |hs| && IsAbstractTitle(hs[at].title)
    requires forall i :: 0 <= i < at ==> !IsAbstractTitle(hs[i].title)
    ensures AbstractFilled(lines, true) == SectionFilled(lines[hs[at].line..], hs[at].level, true)
  {
    var first := hs[at].line - 1;
    forall k | 0 <= k < first ensures !IsAbstractHeading(lines[k]) {
      AbstractBefore(p, hs, at, k);
    }
    FirstAbstract(lines, first);
    assert lines[first..][1..] == lines[first + 1..];
  }

  lemma AbstractNowhere(lines: seq<string>, p: Parsed, hs: seq<Heading>)
    requires p == ParseAll(lines) && ListsHeadings(hs, p)
    requires forall i :: 0 <= i < |hs| ==> !IsAbstractTitle(hs[i].title)
    ensures !AbstractFilled(lines, true)
  {
    forall k | 0 <= k < |lines| ensures !IsAbstractHeading(lines[k]) {
      AbstractBefore(p, hs, |hs|, k);
    }
    FirstAbstract(lines, |lines|);
  }

  /** Counts a table at each row that follows no row. */
  method CountTables(lines: seq<string>) returns (count: nat)
    ensures count == Tables(lines, false)
  {
    count := 0;
    var inTable := false;
    for k := 0 to |lines|
      invariant count + Tables(lines[k..], inTable) == Tables(lines, false)
    {
      assert lines[k..][1..] == lines[k + 1..];
      var isRow := IsTableRow(lines[k]);
      if isRow && !inTable {
        count := count + 1;
        inTable := true;
      } else if !isRow {
        inTable := false;
      }
    }
  }

  lemma LabelsStep(lines: seq<string>, k: nat)
    requires k < |lines|
    ensures LabelsReferenced(lines[k..]) == ReferenceLabels(lines[k], 0) + LabelsReferenced(lines[k + 1..])
    ensures LabelsDefined(lines[k..])
            == (if DefinitionLabel(lines[k]).Some? then {DefinitionLabel(lines[k]).value} else {})
               + LabelsDefined(lines[k + 1..])
  {
    assert lines[k..][1..] == lines[k + 1..];
  }

  method ReferencedLabels(lines: seq<string>) returns (referenced: set<string>)
    ensures referenced == LabelsReferenced(lines)
  {
    referenced := {};
    for k := 0 to |lines|
      invariant referenced + LabelsReferenced(lines[k..]) == LabelsReferenced(lines)
    {
      LabelsStep(lines, k);
      referenced := referenced + ReferenceLabels(lines[k], 0);
    }
  }

  method DefinedLabels(lines: seq<string>) returns (defined: set<string>)
    ensures defined == LabelsDefined(lines)
  {
    defined := {};
    for k := 0 to |lines|
      invariant defined + LabelsDefined(lines[k..]) == LabelsDefined(lines)
    {
      LabelsStep(lines, k);
      var name := DefinitionLabel(lines[k]);
      if name.Some? {
        defined := defined + {name.value};
      }
    }
  }

  /** Skipping lines that are not reference headings. */
  lemma {:induction false} FirstReference(lines: seq<string>, k: nat)
    requires k <= |lines| && forall j :: 0 <= j < k ==> !IsReferenceHeading(lines[j])
    ensures BibliographyCount(lines, true) == BibliographyCount(lines[k..], true)
  {
    if k > 0 {
      FirstReference(lines, k - 1);
      assert lines[k - 1..][1..] == lines[k..];
    }
  }

  /** Entries are counted from the reference heading to the section's end. */
  method BibliographyItemCount(lines: seq<string>) returns (count: nat)
    ensures count == BibliographyCount(lines, true)
  {
    var first := 0;
    while first < |lines| && !IsReferenceHeading(lines[first])
      invariant first <= |lines|
      invariant forall j :: 0 <= j < first ==> !IsReferenceHeading(lines[j])
    {
      first := first + 1;
    }
    FirstReference(lines, first);
    if first == |lines| {
      return 0;
    }
    assert lines[first..][1..] == lines[first + 1..];
    var end := BibliographyEnd(lines, first);
    count := CountEntriesBetween(lines, first + 1, end);
  }

  /** Where the section opened by the heading on line `first` ends, if that line is a heading. */
  method BibliographyEnd(lines: seq<string>, first: nat) returns (end: nat)
    requires first < |lines|
    ensures first + 1 <= end <= |lines|
    ensures CountEntries(lines[first + 1..end]) == EntryCount(lines[first + 1..], LevelOf(lines[first]), true)
  {
    var hs := Headings(lines);
    ghost var p := ParseAll(lines);
    var at := HeadingOnLine(p, hs, first);
    if at.Some? {
      end := FindSectionEnd(p, |lines|, hs, at.value, hs[at.value].level);
      EntriesBeforeEnd(lines, p, first + 1, hs[at.value].level);
    } else {
      end := |lines|;
      EntriesToTheEnd(lines[first + 1..]);
      assert lines[first + 1..|lines|] == lines[first + 1..];
    }
  }

  /** The listed heading on line `first`, if that line is one. */
  method HeadingOnLine(ghost p: Parsed, hs: seq<Heading>, first: nat) returns (at: Option<nat>)
    requires ListsHeadings(hs, p) && first < |p|
    ensures match at
            case None => p[first] == None
            case Some(i) => i < |hs| && hs[i].line == first + 1 && p[first] == Some((hs[i].level, hs[i].title))
  {
    for i := 0 to |hs|
      invariant forall j :: 0 <= j < i ==> hs[j].line != first + 1
    {
      if hs[i].line == first + 1 {
        HeadingLevel(p, hs, i);
        return Some(i);
      }
    }
    NotAHeading(p, hs, first);
    at := None;
  }

  lemma HeadingLevel(p: Parsed, hs: seq<Heading>, at: nat)
    requires ListsHeadings(hs, p) && at < |hs|
    ensures 1 <= hs[at].line <= |p| && p[hs[at].line - 1] == Some((hs[at].level, hs[at].title))
  {
  }

  lemma NotAHeading(p: Parsed, hs: seq<Heading>, first: nat)
    requires ListsHeadings(hs, p) && first < |p|
    requires forall i :: 0 <= i < |hs| ==> hs[i].line != first + 1
    ensures p[first].None?
  {
    assert !Listed(hs, first);
  }

  method CountEntriesBetween(lines: seq<string>, from: nat, end: nat) returns (count: nat)
    requires from <= end <= |lines|
    ensures count == CountEntries(lines[from..end])
  {
    count := 0;
    for k := from to end
      invariant count + CountEntries(lines[k..end]) == CountEntries(lines[from..end])
    {
      assert lines[k..end][1..] == lines[k + 1..end];
      if IsEntry(lines[k]) {
        count := count + 1;
      }
    }
  }

  lemma {:induction false} QuotesOfJoined(lines: seq<string>)
    ensures QuoteMarks(Join("\n", lines)) == QuotesIn(lines)
    ensures QuoteMarks(Join("\n", lines) + "\n") == QuotesIn(lines)
  {
    if lines == [] {
    } else if |lines| == 1 {
      assert QuotesIn(lines[1..]) == 0;
    } else {
      QuotesOfJoined(lines[1..]);
      QuoteMarksConcat(lines[0] + "\n", Join("\n", lines[1..]));
      QuoteMarksConcat(lines[0], "\n");
    }
    QuoteMarksConcat(Join("\n", lines), "\n");
  }

  /** The whole-text quotation count is the sum over its lines. */
  lemma QuotesOfNormalized(text: string)
    ensures QuoteMarks(NormalizeLineEndings(text, LF)) == QuotesIn(CheckedLines(text))
  {
    var lines := SplitLines(text);
    assert LF.Separator() == "\n";
    QuotesOfJoined(lines);
    NormalizedLines(text, LF);
    if !EndsWithBreak(text) {
      WithoutLastEmptyAgrees(lines, s => s);
    }
  }

  datatype Problem = HeadingsChanged | AbstractChanged | ReferencesChanged | DefinitionsChanged
                   | TablesChanged | QuotesChanged | BibliographyChanged

  /** Runs the seven checks in order; the draft passes when none reports a problem. */
  method CheckPublicParity(source: string, draft: string, normal: string -> string)
    returns (ok: bool, problems: seq<Problem>)
    ensures ok <==> Parity(source, draft, normal)
    ensures ok <==> problems == []
  {
    var a := CheckedLines(StripAnnotations(source));
    var b := CheckedLines(draft);
    problems := [];
    var aSignature := HeadingSignature(a, normal);
    var bSignature := HeadingSignature(b, normal);
    if aSignature != bSignature {
      problems := problems + [HeadingsChanged];
    }
    var aFilled := AbstractIsFilled(a);
    var bFilled := AbstractIsFilled(b);
    if aFilled != bFilled {
      problems := problems + [AbstractChanged];
    }
    var aReferenced := ReferencedLabels(a);
    var bReferenced := ReferencedLabels(b);
    if aReferenced != bReferenced {
      problems := problems + [ReferencesChanged];
    }
    var aDefined := DefinedLabels(a);
    var bDefined := DefinedLabels(b);
    if aDefined != bDefined {
      problems := problems + [DefinitionsChanged];
    }
    var aTables := CountTables(a);
    var bTables := CountTables(b);
    if aTables != bTables {
      problems := problems + [TablesChanged];
    }
    QuotesOfNormalized(StripAnnotations(source));
    QuotesOfNormalized(draft);
    if QuoteMarks(NormalizeLineEndings(StripAnnotations(source), LF)) != QuoteMarks(NormalizeLineEndings(draft, LF)) {
      problems := problems + [QuotesChanged];
    }
    var aItems := BibliographyItemCount(a);
    var bItems := BibliographyItemCount(b);
    if aItems != bItems {
      problems := problems + [BibliographyChanged];
    }
    ok := |problems| == 0;
  }

  /** Building and then checking: the outcome is decided by the source's bare lines alone. */
  method BuildAndCheck(text: string, ending: LineEnding, normal: string -> string) returns (ok: bool)
    ensures var lines := SplitLines(StripAnnotations(text));
            ok <==> (!HasShallowBareLine(lines) && !BareEndsBlankAbstract(lines) && !BareHidesBibliography(lines))
  {
    var draft, _ := BuildPublicDraft(text, ending);
    var problems;
    ok, problems := CheckPublicParity(text, draft, normal);
    DraftPassesIff(text, ending, normal);
  }
}
