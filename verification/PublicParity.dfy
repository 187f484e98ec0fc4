/**
 The parity checker, written independently of the draft builder, and the
 theorem that connects them: exactly which source texts have a public draft
 that passes every check.
 */
module PublicParity {
  import opened Wrappers
  import opened Text
  import opened Lines
  import opened Markdown
  import opened PublicDraft

  // ----- what the checks compare, line by line -----

  /** A line's heading; `bare` says whether a bare line of marks counts as one. */
  function HeadingIn(line: string, bare: bool): Option<(nat, string)> {
    if !bare && IsBare(line) then None else ParseHeading(line)
  }

  predicate Stops(line: string, level: nat, bare: bool) {
    HeadingIn(line, bare).Some? && HeadingIn(line, bare).value.0 <= level
  }

  const SIGNATURE_DEPTH := 3

  /** The headings of depth one to three, in order, as levels and normalized titles. */
  function Signature(lines: seq<string>, normal: string -> string, bare: bool): seq<(nat, string)> {
    if lines == [] then [] else
    (match HeadingIn(lines[0], bare)
     case Some((level, title)) => if level <= SIGNATURE_DEPTH then [(level, normal(title))] else []
     case None => [])
    + Signature(lines[1..], normal, bare)
  }

  /** Is there visible text before the next heading of at most this level? */
  predicate SectionFilled(rest: seq<string>, level: nat, bare: bool) {
    rest != [] && !Stops(rest[0], level, bare) && (!Blank(rest[0]) || SectionFilled(rest[1..], level, bare))
  }

  predicate IsAbstractHeading(line: string) {
    ParseHeading(line).Some? && IsAbstractTitle(ParseHeading(line).value.1)
  }

  /** Is the section under the first abstract heading non-empty? */
  predicate AbstractFilled(lines: seq<string>, bare: bool) {
    lines != [] &&
    if IsAbstractHeading(lines[0]) then SectionFilled(lines[1..], ParseHeading(lines[0]).value.0, bare)
    else AbstractFilled(lines[1..], bare)
  }

  function LabelsReferenced(lines: seq<string>): set<string> {
    if lines == [] then {} else ReferenceLabels(lines[0], 0) + LabelsReferenced(lines[1..])
  }

  function LabelsDefined(lines: seq<string>): set<string> {
    if lines == [] then {} else
    (if DefinitionLabel(lines[0]).Some? then {DefinitionLabel(lines[0]).value} else {}) + LabelsDefined(lines[1..])
  }

  /** Runs of table rows, where `inTable` says whether the line before was a row. */
  function Tables(lines: seq<string>, inTable: bool): nat {
    if lines == [] then 0 else
    var row := IsTableRow(lines[0]);
    (if row && !inTable then 1 else 0) + Tables(lines[1..], row)
  }

  function QuotesIn(lines: seq<string>): nat {
    if lines == [] then 0 else QuoteMarks(lines[0]) + QuotesIn(lines[1..])
  }

  function LevelOf(line: string): Option<nat> {
    match ParseHeading(line) case Some((level, _)) => Some(level) case None => None
  }

  /** Entries before the next heading of at most this level, or to the end without one. */
  function EntryCount(rest: seq<string>, level: Option<nat>, bare: bool): nat {
    if rest == [] then 0
    else if level.Some? && Stops(rest[0], level.value, bare) then 0
    else (if IsEntry(rest[0]) then 1 else 0) + EntryCount(rest[1..], level, bare)
  }

  /** Entries under the first reference heading. */
  function BibliographyCount(lines: seq<string>, bare: bool): nat {
    if lines == [] then 0
    else if IsReferenceHeading(lines[0]) then EntryCount(lines[1..], LevelOf(lines[0]), bare)
    else BibliographyCount(lines[1..], bare)
  }

  /** The lines a check reads, for the stripped source or for the draft. */
  function CheckedLines(text: string): seq<string> {
    SplitLines(NormalizeLineEndings(text, LF))
  }

  /** All seven checks agree. */
  ghost predicate Parity(source: string, draft: string, normal: string -> string) {
    var a, b := CheckedLines(StripAnnotations(source)), CheckedLines(draft);
    && Signature(a, normal, true) == Signature(b, normal, true)
    && AbstractFilled(a, true) == AbstractFilled(b, true)
    && LabelsReferenced(a) == LabelsReferenced(b)
    && LabelsDefined(a) == LabelsDefined(b)
    && Tables(a, false) == Tables(b, false)
    && QuotesIn(a) == QuotesIn(b)
    && BibliographyCount(a, true) == BibliographyCount(b, true)
  }

  // ----- trimming changes nothing but bare headings -----

  lemma {:induction false} TrimmedSignature(lines: seq<string>, run: nat, normal: string -> string)
    ensures Signature(PublicLines(lines, run), normal, true) == Signature(lines, normal, false)
  {
    if lines != [] {
      PublicLinesHead(lines, run);
      var head, next := lines[0], if Blank(lines[0]) then run + 1 else 0;
      TrimmedSignature(lines[1..], next, normal);
      HeadingOfRStrip(head);
      if Blank(head) {
        BlankIsNotHeading(head);
        BlankIsNotHeading("");
      }
    }
  }

  lemma {:induction false} TrimmedSection(rest: seq<string>, run: nat, level: nat)
    ensures SectionFilled(PublicLines(rest, run), level, true) == SectionFilled(rest, level, false)
  {
    if rest != [] {
      PublicLinesHead(rest, run);
      var head, next := rest[0], if Blank(rest[0]) then run + 1 else 0;
      TrimmedSection(rest[1..], next, level);
      HeadingOfRStrip(head);
      RStripShape(head);
      if Blank(head) {
        BlankIsNotHeading(head);
        BlankIsNotHeading("");
      } else {
        VisibleTrim(head);
      }
    }
  }

  lemma VisibleTrim(line: string)
    requires !Blank(line)
    ensures !Blank(RStrip(line))
  {
    RStripShape(line);
    assert RStrip(line)[|RStrip(line)| - 1] in RStrip(line);
  }

  lemma AbstractOfRStrip(line: string)
    ensures IsAbstractHeading(RStrip(line)) == IsAbstractHeading(line)
    ensures IsAbstractHeading(line) ==> ParseHeading(RStrip(line)) == ParseHeading(line)
  {
    HeadingOfRStrip(line);
  }

  lemma {:induction false} TrimmedAbstract(lines: seq<string>, run: nat)
    ensures AbstractFilled(PublicLines(lines, run), true) == AbstractFilled(lines, false)
  {
    if lines != [] {
      PublicLinesHead(lines, run);
      var head := lines[0];
      if Blank(head) {
        BlankIsNotHeading(head);
        BlankIsNotHeading("");
        TrimmedAbstract(lines[1..], run + 1);
      } else {
        AbstractOfRStrip(head);
        TrimmedAbstract(lines[1..], 0);
        if IsAbstractHeading(head) {
          TrimmedSection(lines[1..], 0, ParseHeading(head).value.0);
        }
      }
    }
  }

  lemma {:induction false} TrimmedFootnotes(lines: seq<string>, run: nat)
    ensures LabelsReferenced(PublicLines(lines, run)) == LabelsReferenced(lines)
    ensures LabelsDefined(PublicLines(lines, run)) == LabelsDefined(lines)
  {
    if lines != [] {
      PublicLinesHead(lines, run);
      var head := lines[0];
      TrimmedFootnotes(lines[1..], if Blank(head) then run + 1 else 0);
      ReferencesOfRStrip(head);
      StripRStrip(head);
      if Blank(head) {
        BlankHasNoFootnote(head);
        BlankHasNoFootnote("");
      }
    }
  }

  lemma {:induction false} TrimmedTables(lines: seq<string>, run: nat, inTable: bool)
    requires run > 0 ==> !inTable
    ensures Tables(PublicLines(lines, run), inTable) == Tables(lines, inTable)
  {
    if lines != [] {
      PublicLinesHead(lines, run);
      var head := lines[0];
      StripRStrip(head);
      StripShape(head);
      StripShape("");
      TrimmedTables(lines[1..], if Blank(head) then run + 1 else 0, IsTableRow(head));
    }
  }

  lemma {:induction false} TrimmedQuotes(lines: seq<string>, run: nat)
    ensures QuotesIn(PublicLines(lines, run)) == QuotesIn(lines)
  {
    if lines != [] {
      PublicLinesHead(lines, run);
      var head := lines[0];
      TrimmedQuotes(lines[1..], if Blank(head) then run + 1 else 0);
      QuotesOfRStrip(head);
      if Blank(head) {
        BlankHasNoQuotes(head);
      }
    }
  }

  /** Trimming a line changes neither whether it is an entry nor, bare lines aside, what it stops. */
  lemma EntryOfRStrip(line: string, level: nat)
    ensures IsEntry(RStrip(line)) == IsEntry(line)
    ensures Stops(RStrip(line), level, true) == Stops(line, level, false)
    ensures Blank(line) ==> !IsEntry(line) && !Stops(line, level, false)
  {
    HeadingOfRStrip(line);
    StripRStrip(line);
    StripShape(line);
    if Blank(line) {
      BlankIsNotHeading(line);
    }
  }

  lemma {:induction false} TrimmedEntries(rest: seq<string>, run: nat, level: Option<nat>)
    ensures EntryCount(PublicLines(rest, run), level, true) == EntryCount(rest, level, false)
  {
    if rest != [] {
      var head := rest[0];
      PublicLinesHead(rest, run);
      TrimmedEntries(rest[1..], if Blank(head) then run + 1 else 0, level);
      var limit := if level.Some? then level.value else 0;
      EntryOfRStrip(head, limit);
      EntryOfRStrip("", limit);
    }
  }

  lemma ReferenceOfRStrip(line: string)
    ensures IsReferenceHeading(RStrip(line)) == IsReferenceHeading(line)
    ensures IsReferenceHeading(line) ==> LevelOf(RStrip(line)) == LevelOf(line)
    ensures Blank(line) ==> !IsReferenceHeading(line)
  {
    StripRStrip(line);
    StripShape(line);
    HeadingOfRStrip(line);
    if IsBare(line) {
      BareLineIsPlain(line);
    }
  }

  lemma {:induction false} TrimmedBibliography(lines: seq<string>, run: nat)
    ensures BibliographyCount(PublicLines(lines, run), true) == BibliographyCount(lines, false)
  {
    if lines != [] {
      PublicLinesHead(lines, run);
      var head := lines[0];
      ReferenceOfRStrip(head);
      ReferenceOfRStrip("");
      TrimmedBibliography(lines[1..], if Blank(head) then run + 1 else 0);
      if IsReferenceHeading(head) {
        TrimmedEntries(lines[1..], 0, LevelOf(head));
      }
    }
  }

  // ----- a final empty line is invisible to every check -----

  lemma {:induction false} EmptyLineInSection(rest: seq<string>, level: nat)
    ensures SectionFilled(rest + [""], level, true) == SectionFilled(rest, level, true)
  {
    BlankIsNotHeading("");
    if rest != [] {
      assert (rest + [""])[1..] == rest[1..] + [""];
      EmptyLineInSection(rest[1..], level);
    }
  }

  lemma {:induction false} EmptyLineInEntries(rest: seq<string>, level: Option<nat>)
    ensures EntryCount(rest + [""], level, true) == EntryCount(rest, level, true)
  {
    StripShape("");
    if rest != [] {
      assert (rest + [""])[1..] == rest[1..] + [""];
      EmptyLineInEntries(rest[1..], level);
    } else {
      assert (rest + [""])[1..] == [];
    }
  }

  lemma {:induction false} EmptyLineInHeadings(lines: seq<string>, normal: string -> string)
    ensures Signature(lines + [""], normal, true) == Signature(lines, normal, true)
    ensures AbstractFilled(lines + [""], true) == AbstractFilled(lines, true)
    ensures BibliographyCount(lines + [""], true) == BibliographyCount(lines, true)
  {
    BlankIsNotHeading("");
    ReferenceOfRStrip("");
    if lines != [] {
      assert (lines + [""])[1..] == lines[1..] + [""];
      EmptyLineInHeadings(lines[1..], normal);
      if IsAbstractHeading(lines[0]) {
        EmptyLineInSection(lines[1..], ParseHeading(lines[0]).value.0);
      }
      EmptyLineInEntries(lines[1..], LevelOf(lines[0]));
    } else {
      assert (lines + [""])[1..] == [];
    }
  }

  lemma {:induction false} EmptyLineInBody(lines: seq<string>, inTable: bool)
    ensures LabelsReferenced(lines + [""]) == LabelsReferenced(lines)
    ensures LabelsDefined(lines + [""]) == LabelsDefined(lines)
    ensures Tables(lines + [""], inTable) == Tables(lines, inTable)
    ensures QuotesIn(lines + [""]) == QuotesIn(lines)
  {
    BlankHasNoFootnote("");
    StripShape("");
    if lines != [] {
      assert (lines + [""])[1..] == lines[1..] + [""];
      EmptyLineInBody(lines[1..], IsTableRow(lines[0]));
    } else {
      assert (lines + [""])[1..] == [];
    }
  }

  /** Dropping a final empty line changes no check. */
  lemma WithoutLastEmptyAgrees(lines: seq<string>, normal: string -> string)
    ensures var w := WithoutLastEmpty(lines);
            && Signature(w, normal, true) == Signature(lines, normal, true)
            && AbstractFilled(w, true) == AbstractFilled(lines, true)
            && LabelsReferenced(w) == LabelsReferenced(lines)
            && LabelsDefined(w) == LabelsDefined(lines)
            && Tables(w, false) == Tables(lines, false)
            && QuotesIn(w) == QuotesIn(lines)
            && BibliographyCount(w, true) == BibliographyCount(lines, true)
  {
    var w := WithoutLastEmpty(lines);
    if w != lines {
      assert lines == w + [""];
      EmptyLineInHeadings(w, normal);
      EmptyLineInBody(w, false);
    }
  }

  // ----- exactly which bare lines matter -----

  /** A bare line shallow enough for the signature. */
  predicate HasShallowBareLine(lines: seq<string>) {
    lines != [] && ((IsBare(lines[0]) && Hashes(lines[0]) <= SIGNATURE_DEPTH) || HasShallowBareLine(lines[1..]))
  }

  /** Only blank lines come before a bare line that ends the section. */
  predicate BareEndsBlankSection(rest: seq<string>, level: nat) {
    rest != [] &&
    if IsBare(rest[0]) then Hashes(rest[0]) <= level
    else Blank(rest[0]) && BareEndsBlankSection(rest[1..], level)
  }

  /** The first abstract section is blank and ended by a bare line. */
  predicate BareEndsBlankAbstract(lines: seq<string>) {
    lines != [] &&
    if IsAbstractHeading(lines[0]) then BareEndsBlankSection(lines[1..], ParseHeading(lines[0]).value.0)
    else BareEndsBlankAbstract(lines[1..])
  }

  /** A bare line ends the section although entries follow before the next real end. */
  predicate BareHidesEntries(rest: seq<string>, level: nat) {
    rest != [] &&
    if IsBare(rest[0]) && Hashes(rest[0]) <= level then EntryCount(rest[1..], Some(level), false) > 0
    else !Stops(rest[0], level, false) && BareHidesEntries(rest[1..], level)
  }

  /** The first reference section is cut short by a bare line with entries after it. */
  predicate BareHidesBibliography(lines: seq<string>) {
    lines != [] &&
    if IsReferenceHeading(lines[0]) then LevelOf(lines[0]).Some? && BareHidesEntries(lines[1..], LevelOf(lines[0]).value)
    else BareHidesBibliography(lines[1..])
  }

  /** Counting bare lines lengthens the signature by each shallow one. */
  lemma {:induction false} BareLinesLengthenSignature(lines: seq<string>, normal: string -> string)
    ensures |Signature(lines, normal, false)| <= |Signature(lines, normal, true)|
    ensures HasShallowBareLine(lines) ==> |Signature(lines, normal, false)| < |Signature(lines, normal, true)|
    ensures !HasShallowBareLine(lines) ==> Signature(lines, normal, false) == Signature(lines, normal, true)
  {
    if lines != [] {
      BareLinesLengthenSignature(lines[1..], normal);
      HeadingOfRStrip(lines[0]);
    }
  }

  lemma {:induction false} BareLinesInSection(rest: seq<string>, level: nat)
    ensures SectionFilled(rest, level, true) == SectionFilled(rest, level, false) <==> !BareEndsBlankSection(rest, level)
  {
    if rest != [] {
      BareLinesInSection(rest[1..], level);
      HeadingOfRStrip(rest[0]);
      if IsBare(rest[0]) {
        BareLineIsPlain(rest[0]);
      } else if Blank(rest[0]) {
        BlankIsNotHeading(rest[0]);
      }
    }
  }

  lemma {:induction false} BareLinesInAbstract(lines: seq<string>)
    ensures AbstractFilled(lines, true) == AbstractFilled(lines, false) <==> !BareEndsBlankAbstract(lines)
  {
    if lines != [] {
      BareLinesInAbstract(lines[1..]);
      if IsAbstractHeading(lines[0]) {
        BareLinesInSection(lines[1..], ParseHeading(lines[0]).value.0);
      }
    }
  }

  lemma {:induction false} BareLinesInEntries(rest: seq<string>, level: nat)
    ensures EntryCount(rest, Some(level), true) == EntryCount(rest, Some(level), false) <==> !BareHidesEntries(rest, level)
    ensures EntryCount(rest, Some(level), true) <= EntryCount(rest, Some(level), false)
  {
    if rest != [] {
      BareLinesInEntries(rest[1..], level);
      HeadingOfRStrip(rest[0]);
      if IsBare(rest[0]) {
        BareLineIsPlain(rest[0]);
      }
    }
  }

  lemma {:induction false} UnboundedEntries(rest: seq<string>)
    ensures EntryCount(rest, None, true) == EntryCount(rest, None, false)
  {
    if rest != [] {
      UnboundedEntries(rest[1..]);
    }
  }

  lemma {:induction false} BareLinesInBibliography(lines: seq<string>)
    ensures BibliographyCount(lines, true) == BibliographyCount(lines, false) <==> !BareHidesBibliography(lines)
  {
    if lines != [] {
      BareLinesInBibliography(lines[1..]);
      if IsReferenceHeading(lines[0]) {
        match LevelOf(lines[0])
        case Some(level) => BareLinesInEntries(lines[1..], level);
        case None => UnboundedEntries(lines[1..]);
      }
    }
  }

  // ----- the theorem -----

  /** The lines the checker reads from the draft and from the source. */
  lemma CheckedLinesOfDraft(text: string, ending: LineEnding)
    ensures var lines := SplitLines(StripAnnotations(text));
            && CheckedLines(Draft(text, ending)) == WithoutLastEmpty(PublicLines(lines, 0))
            && (CheckedLines(StripAnnotations(text)) == lines
                || CheckedLines(StripAnnotations(text)) == WithoutLastEmpty(lines))
  {
    var lines := SplitLines(StripAnnotations(text));
    PublicLinesUnbroken(lines, 0);
    RoundTrip(PublicLines(lines, 0), ending, LF);
    NormalizedLines(StripAnnotations(text), LF);
  }

  /**
   A draft passes every parity check exactly when no bare line of marks is a
   heading of depth one to three, ends a blank abstract, or hides bibliography
   entries; whatever the line ending and however titles are normalized.
   */
  lemma DraftPassesIff(text: string, ending: LineEnding, normal: string -> string)
    ensures var lines := SplitLines(StripAnnotations(text));
            Parity(text, Draft(text, ending), normal) <==>
              (!HasShallowBareLine(lines) && !BareEndsBlankAbstract(lines) && !BareHidesBibliography(lines))
  {
    var lines := SplitLines(StripAnnotations(text));
    var public := PublicLines(lines, 0);
    CheckedLinesOfDraft(text, ending);
    WithoutLastEmptyAgrees(public, normal);
    WithoutLastEmptyAgrees(lines, normal);
    TrimmedSignature(lines, 0, normal);
    TrimmedAbstract(lines, 0);
    TrimmedFootnotes(lines, 0);
    TrimmedTables(lines, 0, false);
    TrimmedQuotes(lines, 0);
    TrimmedBibliography(lines, 0);
    BareLinesLengthenSignature(lines, normal);
    BareLinesInAbstract(lines);
    BareLinesInBibliography(lines);
  }

  /** Without bare lines the draft always passes. */
  lemma {:induction false} NoBareLineNoHazard(lines: seq<string>)
    requires forall k :: 0 <= k < |lines| ==> !IsBare(lines[k])
    ensures !HasShallowBareLine(lines) && !BareEndsBlankAbstract(lines) && !BareHidesBibliography(lines)
    ensures forall level :: !BareEndsBlankSection(lines, level) && !BareHidesEntries(lines, level)
  {
    if lines != [] {
      NoBareLineNoHazard(lines[1..]);
    }
  }

  lemma DraftPasses(text: string, ending: LineEnding, normal: string -> string)
    requires var lines := SplitLines(StripAnnotations(text)); forall k :: 0 <= k < |lines| ==> !IsBare(lines[k])
    ensures Parity(text, Draft(text, ending), normal)
  {
    NoBareLineNoHazard(SplitLines(StripAnnotations(text)));
    DraftPassesIff(text, ending, normal);
  }

  /** One mark and two spaces: a heading before trimming, none after. */
  lemma BareLineFails(ending: LineEnding, normal: string -> string)
    ensures !Parity("#  ", Draft("#  ", ending), normal)
  {
    var text := "#  ";
    assert StripAnnotations(text, 3) == "";
    assert StripAnnotations(text, 2) == " ";
    assert StripAnnotations(text, 1) == "  ";
    assert StripAnnotations(text) == text;
    SplitOne(text);
    var lines := SplitLines(StripAnnotations(text));
    assert Hashes(text[1..]) == 0;
    assert Hashes(text) == 1;
    assert lines == [text] && IsBare(lines[0]);
    DraftPassesIff(text, ending, normal);
  }
}
