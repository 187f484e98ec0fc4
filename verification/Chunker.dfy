/**
 The passage packer: paragraphs of a normalized text are packed into chunks of
 bounded length, with the offsets of each chunk in the text.
 */
module Chunker {
  import opened Wrappers
  import opened Text

  // ----- normalization -----

  /** text.replace("\r\n", "\n").replace("\r", "\n") */
  function UnifyNewlines(text: string): string {
    if text == [] then ""
    else if text[0] != '\r' then [text[0]] + UnifyNewlines(text[1..])
    else if |text| >= 2 && text[1] == '\n' then "\n" + UnifyNewlines(text[2..])
    else "\n" + UnifyNewlines(text[1..])
  }

  function Normalize(text: string): string {
    Strip(UnifyNewlines(text))
  }

  /** The text without its whitespace. */
  function Visible(s: string): string {
    if s == [] then "" else (if IsSpace(s[0]) then "" else [s[0]]) + Visible(s[1..])
  }

  lemma {:induction false} VisibleConcat(a: string, b: string)
    ensures Visible(a + b) == Visible(a) + Visible(b)
  {
    if a == [] {
      assert a + b == b;
    } else {
      assert (a + b)[1..] == a[1..] + b;
      VisibleConcat(a[1..], b);
    }
  }

  lemma {:induction false} VisibleBlank(s: string)
    requires Blank(s)
    ensures Visible(s) == ""
  {
    if s != [] {
      assert s[0] in s;
      VisibleBlank(s[1..]);
    }
  }

  lemma VisibleStrip(s: string)
    ensures Visible(Strip(s)) == Visible(s)
  {
    var r := RStrip(s);
    RStripShape(s);
    assert s == r + s[|r|..];
    VisibleConcat(r, s[|r|..]);
    VisibleBlank(s[|r|..]);
    VisibleLStrip(r);
  }

  lemma VisibleLStrip(s: string)
    ensures Visible(LStrip(s)) == Visible(s)
  {
    LStripShape(s);
    var n := |s| - |LStrip(s)|;
    assert s == s[..n] + LStrip(s);
    VisibleConcat(s[..n], LStrip(s));
    VisibleBlank(s[..n]);
  }

  lemma {:induction false} VisibleUnified(text: string)
    ensures Visible(UnifyNewlines(text)) == Visible(text)
  {
    if text != [] {
      var u := UnifyNewlines(text);
      if text[0] != '\r' {
        VisibleUnified(text[1..]);
        assert u[1..] == UnifyNewlines(text[1..]);
      } else if |text| >= 2 && text[1] == '\n' {
        VisibleUnified(text[2..]);
        assert u[1..] == UnifyNewlines(text[2..]) && text[1..][1..] == text[2..];
      } else {
        VisibleUnified(text[1..]);
        assert u[1..] == UnifyNewlines(text[1..]);
      }
    }
  }

  /** Normalizing keeps every visible character, in order. */
  lemma NormalizeKeepsVisible(text: string)
    ensures Visible(Normalize(text)) == Visible(text)
  {
    VisibleStrip(UnifyNewlines(text));
    VisibleUnified(text);
  }

  // ----- paragraphs -----

  /** One past the last line feed in s[from..to], if there is one. */
  function AfterLastNewline(s: string, from: nat, to: nat): (j: Option<nat>)
    requires from <= to <= |s|
    ensures j.Some? ==> from < j.value <= to
  {
    if to == from then None
    else if s[to - 1] == '\n' then Some(to)
    else AfterLastNewline(s, from, to - 1)
  }

  /** The end of the greedy match of \n\s*\n that starts at `i`. */
  function BreakEnd(s: string, i: nat): (j: Option<nat>)
    requires i <= |s|
    ensures j.Some? ==> i + 2 <= j.value <= |s| && forall k :: i <= k < j.value ==> IsSpace(s[k])
  {
    if i == |s| || s[i] != '\n' then None else AfterLastNewline(s, i + 1, SkipSpace(s, i + 1))
  }

  /** re.split on paragraph breaks, for the part that began at `start` and is read up to `i`. */
  function SplitBreaks(s: string, start: nat, i: nat): seq<string>
    requires start <= i <= |s|
    decreases |s| - i
  {
    if i == |s| then [s[start..]]
    else match BreakEnd(s, i)
      case Some(j) => [s[start..i]] + SplitBreaks(s, j, j)
      case None => SplitBreaks(s, start, i + 1)
  }

  /** The parts stripped, without empty ones. */
  function Stripped(parts: seq<string>): seq<string> {
    if parts == [] then []
    else (if Strip(parts[0]) != "" then [Strip(parts[0])] else []) + Stripped(parts[1..])
  }

  function Paragraphs(s: string): seq<string> {
    Stripped(SplitBreaks(s, 0, 0))
  }

  // ----- where the paragraphs are -----

  ghost predicate SpaceBetween(s: string, from: nat, to: nat) {
    from <= to <= |s| && forall k :: from <= k < to ==> IsSpace(s[k])
  }

  ghost predicate HasVisibleEnds(p: string) {
    p != "" && !IsSpace(p[0]) && !IsSpace(p[|p| - 1])
  }

  /**
   `ps` are verbatim in `s` at `offsets`, in order, with nothing but space
   before, between and after them, and a gap of at least two after the first.
   */
  ghost predicate Located(s: string, ps: seq<string>, offsets: seq<nat>, from: nat, gap: nat) {
    if ps == [] then offsets == [] && SpaceBetween(s, from, |s|)
    else
      && offsets != []
      && HasVisibleEnds(ps[0]) && OccursAt(ps[0], s, offsets[0])
      && from + gap <= offsets[0] && SpaceBetween(s, from, offsets[0])
      && Located(s, ps[1..], offsets[1..], offsets[0] + |ps[0]|, 2)
  }

  lemma {:induction false} LocatedEarlier(s: string, ps: seq<string>, offsets: seq<nat>, from: nat, gap: nat, earlier: nat)
    requires Located(s, ps, offsets, from, gap) && SpaceBetween(s, earlier, from)
    ensures Located(s, ps, offsets, earlier, gap + from - earlier)
  {
  }

  lemma {:induction false} LocatedSmallerGap(s: string, ps: seq<string>, offsets: seq<nat>, from: nat, gap: nat, smaller: nat)
    requires Located(s, ps, offsets, from, gap) && smaller <= gap
    ensures Located(s, ps, offsets, from, smaller)
  {
  }

  lemma BlankSlice(s: string, from: nat, to: nat)
    requires from <= to <= |s|
    ensures Blank(s[from..to]) <==> SpaceBetween(s, from, to)
  {
    if Blank(s[from..to]) {
      forall k | from <= k < to ensures IsSpace(s[k]) {
        assert s[from..to][k - from] in s[from..to];
      }
    }
  }

  /** How much space a strip removes in front. */
  lemma StripDecomposes(part: string) returns (lead: nat)
    ensures lead + |Strip(part)| <= |part|
    ensures part[lead..lead + |Strip(part)|] == Strip(part)
    ensures Blank(part[0..lead]) && Blank(part[lead + |Strip(part)|..|part|])
  {
    var r := RStrip(part);
    RStripShape(part);
    LStripShape(r);
    lead := |r| - |Strip(part)|;
    assert r[..lead] == part[0..lead] && r[lead..] == part[lead..|r|];
    assert part[|r|..] == part[|r|..|part|];
  }

  lemma SliceOfSlice(s: string, start: nat, i: nat, a: nat, b: nat)
    requires start <= i <= |s| && a <= b <= i - start
    ensures s[start..i][a..b] == s[start + a..start + b]
  {
    var left, right := s[start..i][a..b], s[start + a..start + b];
    forall k | 0 <= k < b - a ensures left[k] == right[k] {
      assert left[k] == s[start..i][a + k];
    }
  }

  lemma SliceConcat(s: string, a: nat, b: nat, c: nat)
    requires a <= b <= c <= |s|
    ensures s[a..c] == s[a..b] + s[b..c]
  {
  }

  /** Where the stripped form of s[start..i] lies. */
  lemma StrippedPart(s: string, start: nat, i: nat) returns (at: nat)
    requires start <= i <= |s|
    ensures var p := Strip(s[start..i]);
            if p == "" then SpaceBetween(s, start, i)
            else HasVisibleEnds(p) && OccursAt(p, s, at) && start <= at && at + |p| <= i
                 && SpaceBetween(s, start, at) && SpaceBetween(s, at + |p|, i)
  {
    var part := s[start..i];
    var p := Strip(part);
    var lead := StripDecomposes(part);
    StripShape(part);
    at := start + lead;
    SliceOfSlice(s, start, i, lead, lead + |p|);
    LeadAndTail(s, start, i, lead, lead + |p|);
    BlankSlice(s, start, i);
  }

  lemma LeadAndTail(s: string, start: nat, i: nat, a: nat, b: nat)
    requires start <= i <= |s| && a <= b <= i - start
    requires Blank(s[start..i][0..a]) && Blank(s[start..i][b..i - start])
    ensures SpaceBetween(s, start, start + a) && SpaceBetween(s, start + b, i)
  {
    SliceOfSlice(s, start, i, 0, a);
    SliceOfSlice(s, start, i, b, i - start);
    BlankSlice(s, start, start + a);
    BlankSlice(s, start + b, i);
  }

  /** One part in front of located paragraphs, separated from them by space. */
  lemma LocateCons(s: string, start: nat, i: nat, at: nat, rest: seq<string>, later: seq<nat>, next: nat)
    requires start <= i <= next && Located(s, rest, later, next, 0) && SpaceBetween(s, i, next)
    requires rest != [] ==> i + 2 <= next
    requires var p := Strip(s[start..i]);
             if p == "" then SpaceBetween(s, start, i)
             else HasVisibleEnds(p) && OccursAt(p, s, at) && start <= at && at + |p| <= i
                  && SpaceBetween(s, start, at) && SpaceBetween(s, at + |p|, i)
    ensures var p := Strip(s[start..i]);
            Located(s, (if p != "" then [p] else []) + rest, (if p != "" then [at] else []) + later, start, 0)
  {
    var p := Strip(s[start..i]);
    if p == "" {
      LocatedEarlier(s, rest, later, next, 0, start);
      LocatedSmallerGap(s, rest, later, start, next - start, 0);
      assert [] + rest == rest && [] + later == later;
    } else {
      LocatePart(s, start, p, at, rest, later, next);
    }
  }

  lemma LocatePart(s: string, start: nat, p: string, at: nat, rest: seq<string>, later: seq<nat>, next: nat)
    requires Located(s, rest, later, next, 0) && at + |p| <= next && (rest != [] ==> at + |p| + 2 <= next)
    requires HasVisibleEnds(p) && OccursAt(p, s, at) && SpaceBetween(s, start, at) && SpaceBetween(s, at + |p|, next)
    ensures Located(s, [p] + rest, [at] + later, start, 0)
  {
    LocatedEarlier(s, rest, later, next, 0, at + |p|);
    if rest != [] {
      LocatedSmallerGap(s, rest, later, at + |p|, next - at - |p|, 2);
    }
    assert ([p] + rest)[1..] == rest && ([at] + later)[1..] == later;
  }

  /** Splitting and stripping loses only space. */
  lemma {:induction false} LocateParagraphs(s: string, start: nat, i: nat) returns (offsets: seq<nat>)
    requires start <= i <= |s|
    ensures Located(s, Stripped(SplitBreaks(s, start, i)), offsets, start, 0)
    decreases |s| - i
  {
    if i < |s| && BreakEnd(s, i).None? {
      offsets := LocateParagraphs(s, start, i + 1);
    } else {
      var at := StrippedPart(s, start, i);
      var p := Strip(s[start..i]);
      if i < |s| {
        var j := BreakEnd(s, i).value;
        var later := LocateParagraphs(s, j, j);
        var rest := SplitBreaks(s, j, j);
        LocateCons(s, start, i, at, Stripped(rest), later, j);
        var parts := SplitBreaks(s, start, i);
        assert parts[0] == s[start..i] && parts[1..] == rest;
        offsets := (if p != "" then [at] else []) + later;
      } else {
        LocateCons(s, start, i, at, [], [], i);
        assert s[start..] == s[start..i];
        assert Stripped([s[start..i]]) == (if p != "" then [p] else []) + [];
        offsets := (if p != "" then [at] else []) + [];
      }
    }
  }

  // ----- packing -----

  datatype Chunk = Chunk(start: nat, end: nat, text: string)

  const BLANK_LINE := "\n\n"

  /** A chunk of lawful size, verbatim unless it joins paragraphs with a blank line. */
  ghost predicate ChunkOk(s: string, maximum: nat, c: Chunk) {
    && 1 <= |c.text| <= maximum
    && c.end - c.start == |c.text|
    && c.end <= |s|
    && (s[c.start..c.end] == c.text || Occurs(BLANK_LINE, c.text))
  }

  /** Chunks are lawful, in order, disjoint, and no two neighbours would have fitted together. */
  ghost predicate Packed(s: string, maximum: nat, out: seq<Chunk>) {
    && (forall k :: 0 <= k < |out| ==> ChunkOk(s, maximum, out[k]))
    && (forall k :: 0 <= k < |out| - 1 ==>
          out[k].end <= out[k + 1].start && |out[k].text| + |out[k + 1].text| + 2 > maximum)
  }

  /** Each chunk holds the visible text from its start to the next chunk's start. */
  ghost predicate Covers(s: string, out: seq<Chunk>, to: nat) {
    && to <= |s|
    && if out == [] then Visible(s[..to]) == ""
       else
         var last := out[|out| - 1];
         last.start <= to && Visible(last.text) == Visible(s[last.start..to]) && Covers(s, out[..|out| - 1], last.start)
  }

  function Concat(out: seq<Chunk>): string {
    if out == [] then "" else Concat(out[..|out| - 1]) + out[|out| - 1].text
  }

  /** Together the chunks hold exactly the visible text. */
  lemma {:induction false} CoversAll(s: string, out: seq<Chunk>, to: nat)
    requires Covers(s, out, to)
    ensures Visible(Concat(out)) == Visible(s[..to])
  {
    if out != [] {
      var last := out[|out| - 1];
      CoversAll(s, out[..|out| - 1], last.start);
      VisibleConcat(Concat(out[..|out| - 1]), last.text);
      assert s[..to] == s[..last.start] + s[last.start..to];
      VisibleConcat(s[..last.start], s[last.start..to]);
    }
  }

  lemma VisibleThroughSpace(s: string, a: nat, from: nat, to: nat)
    requires a <= from && SpaceBetween(s, from, to)
    ensures Visible(s[a..to]) == Visible(s[a..from])
  {
    SliceConcat(s, a, from, to);
    var left, space := s[a..from], s[from..to];
    VisibleConcat(left, space);
    VisibleBlank(space);
  }

  lemma CoversThroughSpace(s: string, out: seq<Chunk>, from: nat, to: nat)
    requires Covers(s, out, from) && SpaceBetween(s, from, to)
    ensures Covers(s, out, to)
  {
    var a := if out == [] then 0 else out[|out| - 1].start;
    VisibleThroughSpace(s, a, from, to);
  }

  /** The chunks so far may be followed by one that starts at or after `from`. */
  ghost predicate EndsBy(out: seq<Chunk>, from: nat) {
    out == [] || out[|out| - 1].end <= from
  }

  /** The last chunk and a text of length `n` would not have fitted together. */
  ghost predicate TooLongWith(maximum: nat, out: seq<Chunk>, n: nat) {
    out == [] || |out[|out| - 1].text| + n + 2 > maximum
  }

  lemma Emit(s: string, maximum: nat, out: seq<Chunk>, c: Chunk, to: nat)
    requires Packed(s, maximum, out) && Covers(s, out, c.start) && EndsBy(out, c.start)
    requires TooLongWith(maximum, out, |c.text|)
    requires ChunkOk(s, maximum, c) && c.start <= to <= |s| && Visible(c.text) == Visible(s[c.start..to])
    ensures Packed(s, maximum, out + [c]) && Covers(s, out + [c], to)
  {
    var longer := out + [c];
    assert longer[..|longer| - 1] == out;
    forall k | 0 <= k < |longer| - 1
      ensures longer[k].end <= longer[k + 1].start && |longer[k].text| + |longer[k + 1].text| + 2 > maximum
    {
      assert longer[k] == out[k];
      if k + 1 < |out| {
        assert longer[k + 1] == out[k + 1];
      }
    }
  }

  /** The pending buffer: what the next chunk will hold, for text already read up to `cursor`. */
  ghost predicate Pending(s: string, maximum: nat, out: seq<Chunk>, buffer: string, start: nat, cursor: nat) {
    && cursor <= |s| && Packed(s, maximum, out)
    && if buffer == "" then Covers(s, out, cursor) && EndsBy(out, cursor) && out == []
       else
         && Covers(s, out, start) && EndsBy(out, start) && TooLongWith(maximum, out, |buffer|)
         && start + |buffer| <= cursor
         && ChunkOk(s, maximum, Chunk(start, start + |buffer|, buffer))
         && Visible(buffer) == Visible(s[start..cursor])
         && !IsSpace(buffer[|buffer| - 1])
         && (IsSpace(buffer[0]) ==> out != [] && |out[|out| - 1].text| == maximum)
  }

  /** No buffer is pending and `p`, found at `at`, comes next. */
  ghost predicate Open(s: string, maximum: nat, out: seq<Chunk>, p: string, at: nat) {
    && Packed(s, maximum, out) && Covers(s, out, at) && EndsBy(out, at) && TooLongWith(maximum, out, |p|)
    && OccursAt(p, s, at) && p != "" && !IsSpace(p[|p| - 1])
    && (IsSpace(p[0]) ==> out != [] && |out[|out| - 1].text| == maximum)
  }

  function AsChunk(start: nat, buffer: string): Chunk {
    Chunk(start, start + |buffer|, buffer)
  }

  /** A paragraph that does not fit flushes the buffer. */
  lemma Flush(s: string, maximum: nat, out: seq<Chunk>, buffer: string, start: nat, cursor: nat, p: string, at: nat)
    requires Pending(s, maximum, out, buffer, start, cursor) && buffer != ""
    requires HasVisibleEnds(p) && OccursAt(p, s, at) && SpaceBetween(s, cursor, at)
    requires |buffer| + |p| + 2 > maximum
    ensures Open(s, maximum, out + [AsChunk(start, buffer)], p, at)
  {
    Emit(s, maximum, out, AsChunk(start, buffer), cursor);
    CoversThroughSpace(s, out + [AsChunk(start, buffer)], cursor, at);
  }

  /** With nothing pending the first paragraph opens at once. */
  lemma OpenFirst(s: string, maximum: nat, out: seq<Chunk>, start: nat, cursor: nat, p: string, at: nat)
    requires Pending(s, maximum, out, "", start, cursor)
    requires HasVisibleEnds(p) && OccursAt(p, s, at) && SpaceBetween(s, cursor, at)
    ensures Open(s, maximum, out, p, at)
  {
    CoversThroughSpace(s, out, cursor, at);
  }

  /** A full slice of a paragraph that is too long. */
  lemma Slice(s: string, maximum: nat, out: seq<Chunk>, p: string, at: nat)
    requires maximum >= 1 && Open(s, maximum, out, p, at) && |p| > maximum
    ensures Open(s, maximum, out + [AsChunk(at, p[..maximum])], p[maximum..], at + maximum)
  {
    assert s[at..at + maximum] == p[..maximum];
    assert s[at + maximum..at + |p|] == p[maximum..];
    Emit(s, maximum, out, AsChunk(at, p[..maximum]), at + maximum);
  }

  /** What is left of a paragraph becomes the buffer. */
  lemma StartBuffer(s: string, maximum: nat, out: seq<Chunk>, p: string, at: nat)
    requires Open(s, maximum, out, p, at) && |p| <= maximum
    ensures Pending(s, maximum, out, p, at, at + |p|)
  {
  }

  /** Joining keeps the visible text, ends visibly, and contains a blank line. */
  lemma JoinedShape(buffer: string, p: string)
    requires buffer != "" && !IsSpace(buffer[|buffer| - 1]) && HasVisibleEnds(p)
    ensures var joined, text := Strip(buffer + BLANK_LINE + p), buffer + BLANK_LINE + p;
            |text| - |buffer| < |joined| <= |text| && joined == text[|text| - |joined|..]
            && !IsSpace(joined[0]) && (!IsSpace(buffer[0]) ==> joined == text)
  {
    var text := buffer + BLANK_LINE + p;
    RStripFixed(text);
    LStripShape(text);
    var cut := |text| - |Strip(text)|;
    assert text[|buffer| - 1] == buffer[|buffer| - 1] && text[0] == buffer[0];
  }

  lemma JoinedVisible(buffer: string, gap: string, p: string)
    requires Blank(gap)
    ensures Visible(buffer + gap + p) == Visible(buffer) + Visible(p)
  {
    VisibleConcat(buffer + gap, p);
    VisibleConcat(buffer, gap);
    VisibleBlank(gap);
  }

  /** The joined buffer is a lawful chunk that still does not fit with the last one. */
  lemma JoinedFits(s: string, maximum: nat, out: seq<Chunk>, buffer: string, start: nat, cursor: nat, p: string,
                   at: nat, joined: string)
    requires Pending(s, maximum, out, buffer, start, cursor) && buffer != ""
    requires cursor + 2 <= at && at + |p| <= |s| && |buffer| + |p| + 2 <= maximum
    requires |p| + 2 < |joined| <= |buffer| + 2 + |p| && Occurs(BLANK_LINE, joined)
    requires !IsSpace(buffer[0]) ==> |joined| == |buffer| + 2 + |p|
    ensures ChunkOk(s, maximum, AsChunk(start, joined)) && TooLongWith(maximum, out, |joined|)
    ensures start + |joined| <= at + |p|
  {
  }

  lemma JoinedEnds(buffer: string, p: string, joined: string)
    requires buffer != "" && !IsSpace(buffer[|buffer| - 1]) && HasVisibleEnds(p) && joined == Strip(buffer + BLANK_LINE + p)
    ensures |p| + 2 < |joined| <= |buffer| + 2 + |p| && Occurs(BLANK_LINE, joined)
    ensures !IsSpace(buffer[0]) ==> |joined| == |buffer| + 2 + |p|
    ensures !IsSpace(joined[0]) && !IsSpace(joined[|joined| - 1])
  {
    var text := buffer + BLANK_LINE + p;
    JoinedShape(buffer, p);
    assert OccursAt(BLANK_LINE, joined, |buffer| - (|text| - |joined|));
    assert joined[|joined| - 1] == p[|p| - 1];
  }

  /** A longer text takes the place of the buffer. */
  lemma Replace(s: string, maximum: nat, out: seq<Chunk>, buffer: string, start: nat, cursor: nat, joined: string, to: nat)
    requires Pending(s, maximum, out, buffer, start, cursor) && buffer != ""
    requires joined != "" && !IsSpace(joined[0]) && !IsSpace(joined[|joined| - 1])
    requires ChunkOk(s, maximum, AsChunk(start, joined)) && TooLongWith(maximum, out, |joined|)
    requires start + |joined| <= to <= |s| && Visible(joined) == Visible(s[start..to])
    ensures Pending(s, maximum, out, joined, start, to)
  {
  }

  lemma JoinedText(s: string, start: nat, cursor: nat, buffer: string, p: string, at: nat)
    requires start <= cursor && SpaceBetween(s, cursor, at) && OccursAt(p, s, at)
    requires Visible(buffer) == Visible(s[start..cursor])
    ensures Visible(Strip(buffer + BLANK_LINE + p)) == Visible(s[start..at + |p|])
  {
    VisibleStrip(buffer + BLANK_LINE + p);
    JoinedVisible(buffer, BLANK_LINE, p);
    VisibleOfJoined(s, start, cursor, p, at);
  }

  /** A paragraph that fits joins the buffer. */
  lemma JoinBuffer(s: string, maximum: nat, out: seq<Chunk>, buffer: string, start: nat, cursor: nat, p: string, at: nat)
    requires Pending(s, maximum, out, buffer, start, cursor) && buffer != ""
    requires HasVisibleEnds(p) && OccursAt(p, s, at) && SpaceBetween(s, cursor, at) && cursor + 2 <= at
    requires |buffer| + |p| + 2 <= maximum
    ensures Pending(s, maximum, out, Strip(buffer + BLANK_LINE + p), start, at + |p|)
    ensures Strip(buffer + BLANK_LINE + p) != ""
  {
    var joined := Strip(buffer + BLANK_LINE + p);
    JoinedEnds(buffer, p, joined);
    JoinedFits(s, maximum, out, buffer, start, cursor, p, at, joined);
    JoinedText(s, start, cursor, buffer, p, at);
    Replace(s, maximum, out, buffer, start, cursor, joined, at + |p|);
  }

  lemma VisibleOfJoined(s: string, start: nat, cursor: nat, p: string, at: nat)
    requires start <= cursor && SpaceBetween(s, cursor, at) && OccursAt(p, s, at)
    ensures Visible(s[start..at + |p|]) == Visible(s[start..cursor]) + Visible(p)
  {
    SliceJoined(s, start, p, at);
    VisibleThroughSpace(s, start, cursor, at);
    VisibleOfParts(s[start..at + |p|], s[start..at], p);
  }

  lemma SliceJoined(s: string, start: nat, p: string, at: nat)
    requires start <= at && OccursAt(p, s, at)
    ensures s[start..at + |p|] == s[start..at] + p
  {
    SliceConcat(s, start, at, at + |p|);
  }

  lemma VisibleOfParts(whole: string, left: string, right: string)
    requires whole == left + right
    ensures Visible(whole) == Visible(left) + Visible(right)
  {
    VisibleConcat(left, right);
  }

  /** A paragraph is found exactly where it is: nothing but space lies before it. */
  lemma FoundThere(s: string, p: string, from: nat, at: nat)
    requires HasVisibleEnds(p) && OccursAt(p, s, at) && SpaceBetween(s, from, at)
    ensures forall k: nat :: from <= k < at ==> !OccursAt(p, s, k)
  {
    forall k: nat | from <= k < at ensures !OccursAt(p, s, k) {
      assert k + |p| <= |s| ==> s[k..k + |p|][0] == s[k];
    }
  }

  /**
   Packs the text.  Besides the shape of the chunks, `Packed` and `Covers` say
   where they lie and that each holds the visible text up to the next one, so
   together they lose nothing but whitespace.
   */
  method Chunks(text: string, maximum: nat) returns (out: seq<Chunk>)
    requires maximum >= 1
    ensures Packed(Normalize(text), maximum, out)
    ensures Covers(Normalize(text), out, |Normalize(text)|)
    ensures Visible(Concat(out)) == Visible(text)
  {
    var normalized := Normalize(text);
    NormalizeKeepsVisible(text);
    ghost var offsets := LocateParagraphs(normalized, 0, 0);
    out := [];
    if normalized != "" {
      out := Pack(normalized, maximum, Paragraphs(normalized), offsets);
    }
    CoversAll(normalized, out, |normalized|);
    assert normalized[..|normalized|] == normalized;
  }

  method Pack(s: string, maximum: nat, paragraphs: seq<string>, ghost offsets: seq<nat>) returns (out: seq<Chunk>)
    requires maximum >= 1 && Located(s, paragraphs, offsets, 0, 0)
    ensures Packed(s, maximum, out) && Covers(s, out, |s|)
  {
    out := [];
    var buffer, start: nat, cursor: nat := "", 0, 0;
    ghost var rest := offsets;
    for k := 0 to |paragraphs|
      invariant Pending(s, maximum, out, buffer, start, cursor)
      invariant Located(s, paragraphs[k..], rest, cursor, if buffer == "" then 0 else 2)
    {
      assert paragraphs[k..][0] == paragraphs[k] && paragraphs[k..][1..] == paragraphs[k + 1..];
      out, buffer, start, cursor := AddParagraph(s, maximum, out, buffer, start, cursor, paragraphs[k], rest[0]);
      rest := rest[1..];
    }
    if buffer != "" {
      Emit(s, maximum, out, AsChunk(start, buffer), cursor);
      out := out + [AsChunk(start, buffer)];
    }
    CoversThroughSpace(s, out, cursor, |s|);
  }

  /** find() returns the paragraph's true position; the source's fallback is never taken. */
  method FindParagraph(s: string, paragraph: string, cursor: nat, ghost at: nat) returns (found: nat)
    requires HasVisibleEnds(paragraph) && OccursAt(paragraph, s, at) && SpaceBetween(s, cursor, at)
    ensures found == at
  {
    var position := Find(s, paragraph, cursor);
    FoundThere(s, paragraph, cursor, at);
    found := cursor;
    if position.Some? {
      found := position.value;
    }
  }

  /**
   The loop body: find the paragraph, flush the buffer if it does not fit, emit
   full slices while it is too long, and start or extend the buffer.
   */
  method AddParagraph(s: string, maximum: nat, before: seq<Chunk>, pending: string, from: nat, read: nat,
                      paragraph: string, ghost at: nat)
    returns (out: seq<Chunk>, buffer: string, start: nat, cursor: nat)
    requires maximum >= 1 && Pending(s, maximum, before, pending, from, read)
    requires HasVisibleEnds(paragraph) && OccursAt(paragraph, s, at) && SpaceBetween(s, read, at)
    requires pending != "" ==> read + 2 <= at
    ensures buffer != "" && Pending(s, maximum, out, buffer, start, cursor) && cursor == at + |paragraph|
  {
    var found := FindParagraph(s, paragraph, read, at);
    if pending != "" && |pending| + |paragraph| + 2 <= maximum {
      JoinBuffer(s, maximum, before, pending, from, read, paragraph, at);
      return before, Strip(pending + BLANK_LINE + paragraph), from, found + |paragraph|;
    }
    out := EmptyBuffer(s, maximum, before, pending, from, read, paragraph, at);
    out, buffer, start, cursor := SliceParagraph(s, maximum, out, paragraph, found);
  }

  /** Slices off what is too long; the rest of the paragraph is the new buffer. */
  method SliceParagraph(s: string, maximum: nat, before: seq<Chunk>, paragraph: string, found: nat)
    returns (out: seq<Chunk>, buffer: string, start: nat, cursor: nat)
    requires maximum >= 1 && Open(s, maximum, before, paragraph, found)
    ensures buffer != "" && Pending(s, maximum, out, buffer, start, cursor) && cursor == found + |paragraph|
  {
    out, buffer, start := SliceLong(s, maximum, before, paragraph, found);
    StartBuffer(s, maximum, out, buffer, start);
    cursor := start + |buffer|;
  }

  /** Emits the buffer, if there is one, before a paragraph that does not fit. */
  method EmptyBuffer(s: string, maximum: nat, before: seq<Chunk>, pending: string, from: nat, ghost read: nat,
                     paragraph: string, ghost at: nat)
    returns (out: seq<Chunk>)
    requires Pending(s, maximum, before, pending, from, read)
    requires HasVisibleEnds(paragraph) && OccursAt(paragraph, s, at) && SpaceBetween(s, read, at)
    requires pending != "" ==> |pending| + |paragraph| + 2 > maximum
    ensures Open(s, maximum, out, paragraph, at)
  {
    if pending != "" {
      Flush(s, maximum, before, pending, from, read, paragraph, at);
      return before + [AsChunk(from, pending)];
    }
    OpenFirst(s, maximum, before, from, read, paragraph, at);
    return before;
  }

  /**
   Emits full slices while the paragraph is too long; the rest becomes the
   buffer.  The source's second flush inside this loop never fires, because a
   paragraph longer than the limit has flushed the buffer before it.
   */
  method SliceLong(s: string, maximum: nat, before: seq<Chunk>, long: string, at: nat)
    returns (out: seq<Chunk>, rest: string, found: nat)
    requires maximum >= 1 && Open(s, maximum, before, long, at)
    ensures Open(s, maximum, out, rest, found) && |rest| <= maximum && found + |rest| == at + |long|
  {
    out, rest, found := before, long, at;
    while |rest| > maximum
      invariant found + |rest| == at + |long|
      invariant Open(s, maximum, out, rest, found)
    {
      Slice(s, maximum, out, rest, found);
      out, rest, found := out + [AsChunk(found, rest[..maximum])], rest[maximum..], found + maximum;
    }
  }
}
