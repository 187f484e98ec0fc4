/**
 What the parity checks read off a text, told by positions and shapes instead of
 by the scans that find it.
 */
module ParityReading {
  import opened Wrappers
  import opened Text
  import opened Markdown
  import opened PublicDraft
  import opened PublicParity

  // ----- headings -----

  /** The line is `n` marks, space, a group with something in it, and space. */
  ghost predicate MatchesHeading(line: string, n: nat, group: string) {
    exists gap, tail :: Parts(line, n, gap, group, tail)
  }

  predicate Parts(line: string, n: nat, gap: string, group: string, tail: string) {
    line == Repeat('#', n) + gap + group + tail && gap != "" && Blank(gap) && group != "" && Blank(tail)
  }

  lemma {:induction false} LStripPadded(pad: string, s: string)
    requires Blank(pad)
    ensures LStrip(pad + s) == LStrip(s)
  {
    if pad == "" {
      assert pad + s == s;
    } else {
      assert pad[0] in pad && (pad + s)[1..] == pad[1..] + s;
      LStripPadded(pad[1..], s);
    }
  }

  lemma RStripBehind(pad: string, s: string)
    requires !Blank(s)
    ensures RStrip(pad + s) == pad + RStrip(s)
  {
    var r := RStrip(s);
    RStripShape(s);
    assert pad + s == pad + r + s[|r|..];
    RStripPadded(pad + r, s[|r|..]);
    RStripFixed(pad + r);
  }

  lemma BlankSum(a: string, b: string)
    requires Blank(a) && Blank(b)
    ensures Blank(a + b)
  {
  }

  lemma StripBehind(pad: string, s: string)
    requires Blank(pad)
    ensures Strip(pad + s) == Strip(s)
  {
    if Blank(s) {
      BlankSum(pad, s);
      StripShape(s);
      StripShape(pad + s);
    } else {
      RStripBehind(pad, s);
      LStripPadded(pad, RStrip(s));
    }
  }

  lemma StripEitherSide(pad: string, s: string, tail: string)
    requires Blank(pad) && Blank(tail)
    ensures Strip(pad + s + tail) == Strip(s)
  {
    StripPadded(pad + s, tail);
    StripBehind(pad, s);
  }

  lemma MarksCounted(n: nat, rest: string)
    requires rest == "" || rest[0] != '#'
    ensures Hashes(Repeat('#', n) + rest) == n
  {
    var line := Repeat('#', n) + rest;
    var h := Hashes(line);
    assert forall k :: 0 <= k < n ==> line[k] == '#';
    assert n < |line| ==> line[n] == rest[0];
  }

  lemma MarksFirst(line: string)
    ensures line == Repeat('#', Hashes(line)) + line[Hashes(line)..]
  {
    assert line[..Hashes(line)] == Repeat('#', Hashes(line));
  }

  lemma MatchParses(line: string, n: nat, group: string)
    requires 1 <= n <= 6 && MatchesHeading(line, n, group)
    ensures ParseHeading(line) == Some((n, Strip(group)))
  {
    var gap, tail :| Parts(line, n, gap, group, tail);
    assert line == Repeat('#', n) + (gap + group + tail);
    assert gap[0] in gap;
    MarksCounted(n, gap + group + tail);
    assert line[n..] == gap + group + tail;
    StripEitherSide(gap, group, tail);
  }

  lemma ParsedShape(line: string, n: nat, title: string)
    requires ParseHeading(line) == Some((n, title))
    ensures 1 <= n <= 6 && n == Hashes(line) && |line| >= n + 2 && IsSpace(line[n]) && Strip(line[n..]) == title
  {
    StripShape(line[n..]);
  }

  lemma Assembled(line: string, marks: string, gap: string, group: string)
    requires |marks| < |line| && line[..|marks|] == marks && gap == [line[|marks|]] && group == line[|marks| + 1..]
    ensures line == marks + gap + group + "" && line[|marks|..] == gap + group + ""
  {
  }

  lemma ParsedMatches(line: string, n: nat, title: string) returns (group: string)
    requires ParseHeading(line) == Some((n, title))
    ensures 1 <= n <= 6 && MatchesHeading(line, n, group) && title == Strip(group)
  {
    ParsedShape(line, n, title);
    var marks, gap := Repeat('#', n), [line[n]];
    group := line[n + 1..];
    assert line[..n] == marks;
    Assembled(line, marks, gap, group);
    StripEitherSide(gap, group, "");
    assert Parts(line, n, gap, group, "");
  }

  /** A line is read as a heading exactly when it matches, and its title is the stripped group. */
  lemma HeadingIff(line: string, n: nat, title: string)
    ensures ParseHeading(line) == Some((n, title))
            <==> 1 <= n <= 6 && exists group :: MatchesHeading(line, n, group) && title == Strip(group)
  {
    if ParseHeading(line) == Some((n, title)) {
      var group := ParsedMatches(line, n, title);
    } else if 1 <= n <= 6 {
      if group :| MatchesHeading(line, n, group) && title == Strip(group) {
        MatchParses(line, n, group);
      }
    }
  }

  /** The signature of a line, and of lines one after the other. */
  lemma SignatureOfLine(line: string, normal: string -> string)
    ensures Signature([line], normal, true) ==
            match ParseHeading(line)
            case Some((n, title)) => if n <= 3 then [(n, normal(title))] else []
            case None => []
  {
    assert [line][1..] == [];
  }

  lemma {:induction false} SignatureOfBoth(a: seq<string>, b: seq<string>, normal: string -> string)
    ensures Signature(a + b, normal, true) == Signature(a, normal, true) + Signature(b, normal, true)
  {
    if a == [] {
      assert a + b == b;
    } else {
      assert (a + b)[1..] == a[1..] + b;
      SignatureOfBoth(a[1..], b, normal);
    }
  }

  // ----- the abstract -----

  /** No line from `from` to `last` is a heading of at most this level. */
  predicate InSection(lines: seq<string>, from: nat, last: nat, level: nat)
    requires last < |lines|
  {
    forall k {:trigger LevelOf(lines[k])} :: from <= k <= last ==> LevelOf(lines[k]).None? || LevelOf(lines[k]).value > level
  }

  ghost predicate FilledAt(rest: seq<string>, level: nat, j: nat) {
    j < |rest| && !Blank(rest[j]) && InSection(rest, 0, j, level)
  }

  lemma FilledLater(rest: seq<string>, level: nat, j: nat)
    requires rest != []
    ensures FilledAt(rest, level, j + 1)
            <==> (LevelOf(rest[0]).None? || LevelOf(rest[0]).value > level) && FilledAt(rest[1..], level, j)
  {
    var tail := rest[1..];
    assert forall k :: 0 <= k < |tail| ==> tail[k] == rest[k + 1];
    if j + 1 < |rest| && InSection(rest, 0, j + 1, level) {
      forall k | 0 <= k <= j ensures LevelOf(tail[k]).None? || LevelOf(tail[k]).value > level {
        assert LevelOf(rest[k + 1]).None? || LevelOf(rest[k + 1]).value > level;
      }
    }
    if j < |tail| && InSection(tail, 0, j, level) {
      forall k | 1 <= k <= j + 1 ensures LevelOf(rest[k]).None? || LevelOf(rest[k]).value > level {
        assert LevelOf(tail[k - 1]).None? || LevelOf(tail[k - 1]).value > level;
      }
    }
  }

  lemma {:induction false} SectionFilledIff(rest: seq<string>, level: nat)
    ensures SectionFilled(rest, level, true) <==> exists j: nat :: FilledAt(rest, level, j)
  {
    if rest != [] {
      SectionFilledIff(rest[1..], level);
      assert Stops(rest[0], level, true) <==> LevelOf(rest[0]).Some? && LevelOf(rest[0]).value <= level;
      assert FilledAt(rest, level, 0) <==> !Blank(rest[0]) && !Stops(rest[0], level, true);
      if j: nat :| FilledAt(rest, level, j) {
        if j > 0 {
          FilledLater(rest, level, j - 1);
        }
      }
      if j: nat :| FilledAt(rest[1..], level, j) {
        FilledLater(rest, level, j);
      }
    }
  }

  /** The abstract: the first heading with that title, and a visible line in its section. */
  ghost predicate AbstractAt(lines: seq<string>, i: nat, j: nat) {
    && i < |lines| && IsAbstractHeading(lines[i]) && (forall k :: 0 <= k < i ==> !IsAbstractHeading(lines[k]))
    && FilledAt(lines[i + 1..], ParseHeading(lines[i]).value.0, j)
  }

  lemma AbstractLater(lines: seq<string>, i: nat, j: nat)
    requires lines != []
    ensures AbstractAt(lines, i + 1, j) <==> !IsAbstractHeading(lines[0]) && AbstractAt(lines[1..], i, j)
  {
    if i + 1 < |lines| {
      assert lines[1..][i] == lines[i + 1] && lines[1..][i + 1..] == lines[i + 2..];
      assert forall k :: 0 <= k < i ==> lines[1..][k] == lines[k + 1];
    }
  }

  lemma {:induction false} AbstractIff(lines: seq<string>)
    ensures AbstractFilled(lines, true) <==> exists i: nat, j: nat :: AbstractAt(lines, i, j)
  {
    if lines != [] {
      AbstractIff(lines[1..]);
      if IsAbstractHeading(lines[0]) {
        SectionFilledIff(lines[1..], ParseHeading(lines[0]).value.0);
        if j: nat :| FilledAt(lines[1..], ParseHeading(lines[0]).value.0, j) {
          assert AbstractAt(lines, 0, j);
        }
      } else if i: nat, j: nat :| AbstractAt(lines[1..], i, j) {
        AbstractLater(lines, i, j);
      }
      if i: nat, j: nat :| AbstractAt(lines, i, j) {
        if i > 0 {
          AbstractLater(lines, i - 1, j);
        }
      }
    }
  }

  // ----- footnotes -----

  predicate Opens(line: string, i: nat) {
    i + 1 < |line| && line[i] == '[' && line[i + 1] == '^'
  }

  /** line[i..j] is "[^" and a label without "]", and j closes it. */
  ghost predicate LabelAt(line: string, i: nat, j: nat) {
    Opens(line, i) && i + 3 <= j < |line| && line[j] == ']' && forall k :: i + 2 <= k < j ==> line[k] != ']'
  }

  /** Each earlier opening is closed before `i`, so that the label at `i` does not stand in another one. */
  ghost predicate IsOutermost(line: string, from: nat, i: nat) {
    forall k: nat :: from <= k < i && Opens(line, k) ==> exists m :: k < m < i && m < |line| && line[m] == ']'
  }

  /** A footnote reference: a label that is not part of another, and is not followed by a colon. */
  ghost predicate ReferenceFrom(line: string, from: nat, i: nat, j: nat) {
    from <= i && LabelAt(line, i, j) && IsOutermost(line, from, i) && !ColonAt(line, j + 1)
  }

  lemma LabelEndIs(line: string, i: nat, j: nat)
    ensures LabelEnd(line, i) == Some(j) <==> LabelAt(line, i, j)
  {
    if LabelAt(line, i, j) {
      assert FirstClose(line, i + 2) == j;
    }
  }

  /** Nothing but the reference at `from` begins before the bracket that closes it. */
  lemma PastReference(line: string, from: nat, end: nat, i: nat, j: nat)
    requires ReferenceFrom(line, from, from, end)
    ensures ReferenceFrom(line, from, i, j) <==> (i == from && j == end) || ReferenceFrom(line, end + 1, i, j)
  {
    if i > end && IsOutermost(line, end + 1, i) {
      forall k: nat | from <= k < i && Opens(line, k) ensures exists m :: k < m < i && m < |line| && line[m] == ']' {
        if k < end {
          assert line[end] == ']';
        }
      }
    }
    if ReferenceFrom(line, from, i, j) && i > from {
      assert Opens(line, from);
      var m :| from < m < i && m < |line| && line[m] == ']';
    }
  }

  /** Where no reference begins, the next one is found from the next character on. */
  lemma PastOther(line: string, from: nat, i: nat, j: nat)
    requires forall end: nat :: !ReferenceFrom(line, from, from, end)
    ensures ReferenceFrom(line, from, i, j) <==> ReferenceFrom(line, from + 1, i, j)
  {
    if i > from && Opens(line, from) && LabelAt(line, i, j) && !ColonAt(line, j + 1) {
      if forall m :: from < m < i ==> line[m] != ']' {
        assert LabelAt(line, from, j);
        assert ReferenceFrom(line, from, from, j);
      }
    }
  }

  /** A reference at `i` that carries this name. */
  ghost predicate RefersFrom(line: string, from: nat, i: nat, j: nat, name: string) {
    ReferenceFrom(line, from, i, j) && name == Strip(line[i + 2..j])
  }

  ghost predicate HasReference(line: string, from: nat, name: string) {
    exists i: nat, j: nat :: RefersFrom(line, from, i, j, name)
  }

  lemma {:induction false} LabelsIff(line: string, from: nat, name: string)
    requires from <= |line|
    ensures name in ReferenceLabels(line, from) <==> HasReference(line, from, name)
    decreases |line| - from
  {
    if from < |line| {
      var end := ReferenceAt(line, from);
      if end.Some? {
        LabelsIff(line, end.value + 1, name);
        ReferenceThenRest(line, from, end.value, end.value + 1, name);
      } else {
        LabelsIff(line, from + 1, name);
        RestOnly(line, from, from + 1, name);
      }
    } else {
      assert forall i: nat, j: nat :: !RefersFrom(line, from, i, j, name);
    }
  }

  lemma ReferenceThenRest(line: string, from: nat, end: nat, next: nat, name: string)
    requires ReferenceAt(line, from) == Some(end) && next == end + 1
    ensures HasReference(line, from, name) <==> name == Strip(line[from + 2..end]) || HasReference(line, next, name)
  {
    LabelEndIs(line, from, end);
    if i: nat, j: nat :| RefersFrom(line, from, i, j, name) {
      PastReference(line, from, end, i, j);
      assert i != from ==> RefersFrom(line, next, i, j, name);
    }
    if i: nat, j: nat :| RefersFrom(line, next, i, j, name) {
      PastReference(line, from, end, i, j);
      assert RefersFrom(line, from, i, j, name);
    }
    if name == Strip(line[from + 2..end]) {
      assert RefersFrom(line, from, from, end, name);
    }
  }

  lemma RestOnly(line: string, from: nat, next: nat, name: string)
    requires ReferenceAt(line, from) == None && next == from + 1
    ensures HasReference(line, from, name) <==> HasReference(line, next, name)
  {
    forall end: nat ensures !ReferenceFrom(line, from, from, end) {
      LabelEndIs(line, from, end);
    }
    if i: nat, j: nat :| RefersFrom(line, from, i, j, name) {
      PastOther(line, from, i, j);
      assert RefersFrom(line, next, i, j, name);
    }
    if i: nat, j: nat :| RefersFrom(line, next, i, j, name) {
      PastOther(line, from, i, j);
      assert RefersFrom(line, from, i, j, name);
    }
  }

  /** The referenced labels are those of all references in all lines. */
  lemma {:induction false} ReferencedIff(lines: seq<string>, name: string)
    ensures name in LabelsReferenced(lines) <==> exists k: nat :: k < |lines| && HasReference(lines[k], 0, name)
  {
    if lines != [] {
      LabelsIff(lines[0], 0, name);
      ReferencedIff(lines[1..], name);
      assert forall k: nat :: k < |lines| - 1 ==> lines[1..][k] == lines[k + 1];
    }
  }

  /** The line, stripped, is "[^", a label without "]", "]:" and a rest. */
  ghost predicate Defines(line: string, name: string) {
    exists raw, rest :: DefinitionParts(Strip(line), raw, rest) && name == Strip(raw)
  }

  predicate DefinitionParts(s: string, raw: string, rest: string) {
    s == "[^" + raw + "]:" + rest && raw != "" && ']' !in raw
  }

  lemma PartsOf(s: string, open: string, raw: string, close: string, rest: string)
    requires s == open + raw + close + rest && |open| == 2 && |close| == 2
    ensures |s| >= |raw| + 4 && s[0] == open[0] && s[1] == open[1] && s[2..|raw| + 2] == raw
    ensures s[|raw| + 2] == close[0] && s[|raw| + 3] == close[1]
  {
  }

  lemma PartsFrom(s: string, open: string, close: string, j: nat)
    requires |open| == 2 && |close| == 2 && 2 <= j && j + 1 < |s|
    requires s[0] == open[0] && s[1] == open[1] && s[j] == close[0] && s[j + 1] == close[1]
    ensures s == open + s[2..j] + close + s[j + 2..]
  {
  }

  lemma PartsDefine(s: string, raw: string, rest: string)
    requires DefinitionParts(s, raw, rest)
    ensures LabelEnd(s, 0) == Some(|raw| + 2) && ColonAt(s, |raw| + 3) && s[2..|raw| + 2] == raw
  {
    PartsOf(s, "[^", raw, "]:", rest);
    assert forall k :: 2 <= k < |raw| + 2 ==> s[k] == s[2..|raw| + 2][k - 2];
    LabelEndIs(s, 0, |raw| + 2);
  }

  lemma DefinitionIff(line: string, name: string)
    ensures DefinitionLabel(line) == Some(name) <==> Defines(line, name)
  {
    var s := Strip(line);
    if DefinitionLabel(line) == Some(name) {
      var j := LabelEnd(s, 0).value;
      LabelEndIs(s, 0, j);
      PartsFrom(s, "[^", "]:", j);
      assert DefinitionParts(s, s[2..j], s[j + 2..]);
    } else if raw, rest :| DefinitionParts(s, raw, rest) && name == Strip(raw) {
      PartsDefine(s, raw, rest);
    }
  }

  lemma {:induction false} DefinedIff(lines: seq<string>, name: string)
    ensures name in LabelsDefined(lines) <==> exists k: nat :: k < |lines| && Defines(lines[k], name)
  {
    if lines != [] {
      DefinitionIff(lines[0], name);
      DefinedIff(lines[1..], name);
      assert forall k: nat :: k < |lines| - 1 ==> lines[1..][k] == lines[k + 1];
    }
  }

  // ----- tables, quotations, bibliography -----

  /** The line begins with a bar after nothing but space. */
  lemma TableRowIff(line: string)
    ensures IsTableRow(line) <==> exists i :: 0 <= i < |line| && line[i] == '|' && Blank(line[..i])
  {
    var gap := FirstVisible(line);
    forall i | 0 <= i < |line| && line[i] == '|' && Blank(line[..i]) ensures i == gap {
      BlankBefore(line, i);
    }
  }

  lemma BlankBefore(line: string, i: nat)
    requires i <= |line|
    ensures Blank(line[..i]) <==> forall k :: 0 <= k < i ==> IsSpace(line[k])
  {
    assert forall k :: 0 <= k < i ==> line[k] in line[..i];
  }

  /** Where the visible text begins, if there is any. */
  lemma FirstVisible(line: string) returns (gap: nat)
    ensures gap <= |line| && Blank(line[..gap]) && forall k :: 0 <= k < gap ==> IsSpace(line[k])
    ensures gap < |line| ==> Strip(line) != "" && Strip(line)[0] == line[gap] && !IsSpace(line[gap])
    ensures gap == |line| ==> Strip(line) == ""
  {
    StripShape(line);
    if Strip(line) == "" {
      gap := |line|;
      assert forall k :: 0 <= k < gap ==> line[k] in line;
      return;
    }
    var r := RStrip(line);
    RStripShape(line);
    LStripShape(r);
    gap := |r| - |LStrip(r)|;
    assert line[..gap] == r[..gap];
    assert forall k :: 0 <= k < gap ==> line[k] in line[..gap];
  }

  /** A row that follows no row. */
  predicate StartsTable(lines: seq<string>, k: nat)
    requires k < |lines|
  {
    IsTableRow(lines[k]) && (k == 0 || !IsTableRow(lines[k - 1]))
  }

  function TableStarts(lines: seq<string>, from: nat): set<nat> {
    set k: nat | from <= k < |lines| && StartsTable(lines, k)
  }

  lemma StartsStep(lines: seq<string>, k: nat)
    requires k < |lines|
    ensures |TableStarts(lines, k)| == |TableStarts(lines, k + 1)| + (if StartsTable(lines, k) then 1 else 0)
  {
    assert TableStarts(lines, k) == TableStarts(lines, k + 1) + (if StartsTable(lines, k) then {k} else {});
  }

  lemma TablesStep(lines: seq<string>, k: nat, inTable: bool)
    requires k < |lines|
    ensures Tables(lines[k..], inTable)
            == (if IsTableRow(lines[k]) && !inTable then 1 else 0) + Tables(lines[k + 1..], IsTableRow(lines[k]))
  {
    assert lines[k..][1..] == lines[k + 1..];
  }

  lemma {:induction false} TablesFrom(lines: seq<string>, k: nat)
    requires k <= |lines|
    ensures Tables(lines[k..], k > 0 && IsTableRow(lines[k - 1])) == |TableStarts(lines, k)|
    decreases |lines| - k
  {
    if k < |lines| {
      TablesFrom(lines, k + 1);
      TablesStep(lines, k, k > 0 && IsTableRow(lines[k - 1]));
      StartsStep(lines, k);
    } else {
      assert TableStarts(lines, k) == {};
    }
  }

  /** Tables are counted by the rows that follow no row. */
  lemma TablesAreStarts(lines: seq<string>)
    ensures Tables(lines, false) == |TableStarts(lines, 0)|
  {
    TablesFrom(lines, 0);
    assert lines[0..] == lines;
  }

  /** Quotations are counted by their marks. */
  lemma {:induction false} QuotesAre(text: string)
    ensures QuoteMarks(text) == multiset(text)['\U{201C}'] + multiset(text)['\U{201D}']
  {
    if text != "" {
      QuotesAre(text[1..]);
      assert text == [text[0]] + text[1..];
    }
  }

  /** The entries at or after `from`, up to the first heading of at most this level. */
  function Entries(lines: seq<string>, from: nat, level: Option<nat>): set<nat> {
    set k: nat | from <= k < |lines| && IsEntry(lines[k]) && (level.Some? ==> InSection(lines, from, k, level.value))
  }

  lemma InSectionStep(lines: seq<string>, from: nat, last: nat, level: nat)
    requires from <= last < |lines|
    ensures InSection(lines, from, last, level) <==> !Stops(lines[from], level, true) && InSection(lines, from + 1, last, level)
  {
    assert Stops(lines[from], level, true) <==> LevelOf(lines[from]).Some? && LevelOf(lines[from]).value <= level;
  }

  lemma EntriesStep(lines: seq<string>, from: nat, level: Option<nat>)
    requires from < |lines|
    ensures Entries(lines, from, level) ==
            if level.Some? && Stops(lines[from], level.value, true) then {}
            else Entries(lines, from + 1, level) + (if IsEntry(lines[from]) then {from} else {})
  {
    if level.Some? {
      forall k: nat | from <= k < |lines|
        ensures InSection(lines, from, k, level.value)
                <==> !Stops(lines[from], level.value, true) && InSection(lines, from + 1, k, level.value)
      {
        InSectionStep(lines, from, k, level.value);
      }
    }
  }

  lemma {:induction false} EntriesAre(lines: seq<string>, from: nat, level: Option<nat>)
    requires from <= |lines|
    ensures EntryCount(lines[from..], level, true) == |Entries(lines, from, level)|
    decreases |lines| - from
  {
    if from < |lines| {
      assert lines[from..][1..] == lines[from + 1..];
      EntriesAre(lines, from + 1, level);
      EntriesStep(lines, from, level);
    } else {
      assert Entries(lines, from, level) == {};
    }
  }

  /** The bibliography is counted by the entries below the first reference heading, up to the end of its section. */
  lemma {:induction false} BibliographyIs(lines: seq<string>, first: nat)
    requires first <= |lines| && forall k :: 0 <= k < first ==> !IsReferenceHeading(lines[k])
    requires first < |lines| ==> IsReferenceHeading(lines[first])
    ensures BibliographyCount(lines, true) ==
            if first == |lines| then 0 else |Entries(lines, first + 1, LevelOf(lines[first]))|
    decreases first
  {
    BibliographySkips(lines, first);
    if first < |lines| {
      assert lines[first..][1..] == lines[first + 1..];
      EntriesAre(lines, first + 1, LevelOf(lines[first]));
    }
  }

  lemma {:induction false} BibliographySkips(lines: seq<string>, first: nat)
    requires first <= |lines| && forall k :: 0 <= k < first ==> !IsReferenceHeading(lines[k])
    ensures BibliographyCount(lines, true) == BibliographyCount(lines[first..], true)
  {
    if first > 0 {
      BibliographySkips(lines, first - 1);
      assert lines[first - 1..][1..] == lines[first..];
    }
  }

  /** A reference heading, stripped, is one to six marks, space if any, and one of the titles. */
  ghost predicate IsReference(s: string) {
    exists n: nat, gap, title :: ReferenceParts(s, n, gap, title)
  }

  predicate ReferenceParts(s: string, n: nat, gap: string, title: string) {
    1 <= n <= 6 && s == Repeat('#', n) + gap + title && Blank(gap)
    && (title == REFERENCES_CN || FoldsTo(title, "references") || FoldsTo(title, "bibliography"))
  }

  lemma SpaceFirst(rest: string) returns (gap: string)
    ensures Blank(gap) && rest == gap + LStrip(rest)
  {
    LStripShape(rest);
    gap := rest[..|rest| - |LStrip(rest)|];
  }

  lemma ReferenceParsed(s: string) returns (gap: string, title: string)
    ensures Blank(gap) && title == LStrip(s[Hashes(s)..]) && s == Repeat('#', Hashes(s)) + gap + title
  {
    MarksFirst(s);
    gap := SpaceFirst(s[Hashes(s)..]);
    title := LStrip(s[Hashes(s)..]);
    JoinsUp(Repeat('#', Hashes(s)), gap, title);
  }

  lemma JoinsUp(a: string, b: string, c: string)
    ensures a + (b + c) == a + b + c
  {
  }

  lemma ReferenceReads(s: string, n: nat, gap: string, title: string)
    requires s == Repeat('#', n) + gap + title && Blank(gap) && title != "" && title[0] != '#' && !IsSpace(title[0])
    ensures Hashes(s) == n && LStrip(s[n..]) == title
  {
    assert s == Repeat('#', n) + (gap + title);
    assert gap != "" ==> gap[0] in gap;
    MarksCounted(n, gap + title);
    assert s[n..] == gap + title;
    LStripPadded(gap, title);
  }

  lemma TitlesBegin(title: string)
    requires title == REFERENCES_CN || FoldsTo(title, "references") || FoldsTo(title, "bibliography")
    ensures title != "" && title[0] != '#' && !IsSpace(title[0])
  {
  }

  lemma ReferenceHeadingIff(line: string)
    ensures IsReferenceHeading(line) <==> IsReference(Strip(line))
  {
    var s := Strip(line);
    if IsReferenceHeading(line) {
      var gap, title := ReferenceParsed(s);
      assert ReferenceParts(s, Hashes(s), gap, title);
    } else if n: nat, gap, title :| ReferenceParts(s, n, gap, title) {
      TitlesBegin(title);
      ReferenceReads(s, n, gap, title);
    }
  }
}
