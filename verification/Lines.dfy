/** str.splitlines, str.join and line-ending normalization. */
module Lines {

  /** The characters splitlines breaks at. */
  predicate IsBreak(c: char) {
    || '\n' <= c <= '\r' || '\U{1C}' <= c <= '\U{1E}' || c == '\U{85}' || c == '\U{2028}' || c == '\U{2029}'
  }

  /** Where the first line of `s` ends. */
  function FirstBreak(s: string): (n: nat)
    ensures n <= |s|
    ensures n < |s| ==> IsBreak(s[n])
    ensures forall k :: 0 <= k < n ==> !IsBreak(s[k])
  {
    if s == [] || IsBreak(s[0]) then 0 else FirstBreak(s[1..]) + 1
  }

  /** A carriage return and line feed break together. */
  function BreakLength(s: string): (n: nat)
    requires s != []
    ensures 1 <= n <= |s|
  {
    if |s| >= 2 && s[0] == '\r' && s[1] == '\n' then 2 else 1
  }

  /** text.splitlines(): a final line break does not open another line. */
  function SplitLines(s: string): (lines: seq<string>)
    ensures Unbroken(lines)
    ensures s != [] ==> lines != []
    decreases |s|
  {
    if s == [] then []
    else
      var n := FirstBreak(s);
      if n == |s| then [s]
      else
        var rest := SplitLines(s[n..][BreakLength(s[n..])..]);
        UnbrokenCons(s[..n], rest);
        [s[..n]] + rest
  }

  ghost predicate Unbroken(lines: seq<string>) {
    forall k :: 0 <= k < |lines| ==> IsLine(lines[k])
  }

  ghost predicate IsLine(line: string) {
    forall c :: c in line ==> !IsBreak(c)
  }

  lemma UnbrokenCons(line: string, rest: seq<string>)
    requires IsLine(line) && Unbroken(rest)
    ensures Unbroken([line] + rest)
  {
  }

  /** sep.join(lines) */
  function Join(sep: string, lines: seq<string>): string {
    if lines == [] then ""
    else if |lines| == 1 then lines[0]
    else lines[0] + sep + Join(sep, lines[1..])
  }

  datatype LineEnding = LF | CRLF | CR {
    function Separator(): string {
      match this case LF => "\n" case CRLF => "\r\n" case CR => "\r"
    }
  }

  predicate EndsWithBreak(text: string) {
    text != [] && (text[|text| - 1] == '\n' || text[|text| - 1] == '\r')
  }

  function NormalizeLineEndings(text: string, ending: LineEnding): string {
    var sep := ending.Separator();
    if EndsWithBreak(text) then Join(sep, SplitLines(text)) + sep else Join(sep, SplitLines(text))
  }

  /** The lines left when a final empty line is not terminated. */
  function WithoutLastEmpty(lines: seq<string>): seq<string> {
    if lines != [] && lines[|lines| - 1] == "" then lines[..|lines| - 1] else lines
  }

  lemma {:induction false} FirstBreakAfter(line: string, tail: string)
    requires IsLine(line) && (tail == [] || IsBreak(tail[0]))
    ensures FirstBreak(line + tail) == |line|
  {
    if line == [] {
      assert line + tail == tail;
    } else {
      assert line[0] in line;
      assert (line + tail)[1..] == line[1..] + tail;
      FirstBreakAfter(line[1..], tail);
    }
  }

  /** Splitting one joined line off the front. */
  lemma SplitFirst(line: string, ending: LineEnding, rest: string)
    requires IsLine(line)
    requires ending == CR ==> rest == [] || rest[0] != '\n'
    ensures SplitLines(line + ending.Separator() + rest) == [line] + SplitLines(rest)
  {
    var sep := ending.Separator();
    var s := line + sep + rest;
    assert s == line + (sep + rest);
    FirstBreakAfter(line, sep + rest);
    assert s[..|line|] == line && s[|line|..] == sep + rest;
    assert BreakLength(sep + rest) == |sep|;
    assert (sep + rest)[|sep|..] == rest;
  }

  lemma SplitOne(line: string)
    requires IsLine(line) && line != []
    ensures SplitLines(line) == [line]
  {
    FirstBreakAfter(line, "");
    assert line + "" == line;
  }

  /** A joined text never starts with a line feed unless the separator does. */
  lemma JoinStart(lines: seq<string>, ending: LineEnding, tail: string)
    requires Unbroken(lines) && ending == CR && (tail == "" || tail == "\r")
    ensures var t := Join(ending.Separator(), lines) + tail; t == [] || t[0] != '\n'
  {
    if lines != [] && lines[0] != [] {
      assert lines[0][0] in lines[0];
    }
  }

  lemma JoinCons(lines: seq<string>, sep: string, tail: string)
    requires |lines| >= 2
    ensures Join(sep, lines) + tail == lines[0] + sep + (Join(sep, lines[1..]) + tail)
  {
  }

  /** Splitting the first of several joined lines off the front. */
  lemma SplitCons(lines: seq<string>, ending: LineEnding, tail: string)
    requires Unbroken(lines) && |lines| >= 2 && (tail == "" || tail == ending.Separator())
    ensures var sep := ending.Separator();
            SplitLines(Join(sep, lines) + tail) == [lines[0]] + SplitLines(Join(sep, lines[1..]) + tail)
  {
    var sep := ending.Separator();
    JoinCons(lines, sep, tail);
    if ending == CR {
      JoinStart(lines[1..], ending, tail);
    }
    SplitFirst(lines[0], ending, Join(sep, lines[1..]) + tail);
  }

  lemma SplitOneTerminated(line: string, ending: LineEnding)
    requires IsLine(line)
    ensures SplitLines(line + ending.Separator()) == [line]
  {
    assert line + ending.Separator() + "" == line + ending.Separator();
    SplitFirst(line, ending, "");
  }

  /** Terminated lines split back exactly. */
  lemma {:induction false} SplitTerminated(lines: seq<string>, ending: LineEnding)
    requires Unbroken(lines) && lines != []
    ensures SplitLines(Join(ending.Separator(), lines) + ending.Separator()) == lines
  {
    if |lines| == 1 {
      SplitOneTerminated(lines[0], ending);
      assert lines == [lines[0]];
    } else {
      SplitCons(lines, ending, ending.Separator());
      SplitTerminated(lines[1..], ending);
      assert lines == [lines[0]] + lines[1..];
    }
  }

  /** Unterminated lines split back without a final empty line. */
  lemma {:induction false} SplitJoined(lines: seq<string>, ending: LineEnding)
    requires Unbroken(lines)
    ensures SplitLines(Join(ending.Separator(), lines)) == WithoutLastEmpty(lines)
  {
    var sep := ending.Separator();
    if lines == [] {
    } else if |lines| == 1 {
      if lines[0] != [] {
        SplitOne(lines[0]);
        assert lines == [lines[0]];
      }
    } else {
      SplitCons(lines, ending, "");
      assert Join(sep, lines) + "" == Join(sep, lines) && Join(sep, lines[1..]) + "" == Join(sep, lines[1..]);
      SplitJoined(lines[1..], ending);
      WithoutLastEmptyTail(lines);
    }
  }

  lemma WithoutLastEmptyTail(lines: seq<string>)
    requires |lines| >= 2
    ensures WithoutLastEmpty(lines) == [lines[0]] + WithoutLastEmpty(lines[1..])
  {
    if lines[|lines| - 1] == "" {
      assert [lines[0]] + lines[1..][..|lines| - 2] == lines[..|lines| - 1];
    } else {
      assert lines == [lines[0]] + lines[1..];
    }
  }

  lemma {:induction false} JoinEndsWithBreak(lines: seq<string>, ending: LineEnding)
    requires Unbroken(lines)
    ensures EndsWithBreak(Join(ending.Separator(), lines)) <==> |lines| >= 2 && lines[|lines| - 1] == ""
  {
    var sep := ending.Separator();
    if |lines| == 1 {
      if lines[0] != [] {
        assert lines[0][|lines[0]| - 1] in lines[0];
      }
    } else if |lines| >= 2 {
      var rest := Join(sep, lines[1..]);
      JoinEndsWithBreak(lines[1..], ending);
      var all := lines[0] + sep + rest;
      if rest == [] {
        assert all[|all| - 1] == sep[|sep| - 1];
        JoinEmpty(lines[1..], ending);
      } else {
        assert all[|all| - 1] == rest[|rest| - 1];
        if |lines| == 2 {
          assert rest == lines[1];
        }
      }
    }
  }

  lemma JoinEmpty(lines: seq<string>, ending: LineEnding)
    requires lines != [] && Join(ending.Separator(), lines) == []
    ensures lines == [""]
  {
  }

  /** The lines of a normalized text, whatever the text's own line breaks were. */
  lemma NormalizedLines(text: string, ending: LineEnding)
    ensures SplitLines(NormalizeLineEndings(text, ending))
            == if EndsWithBreak(text) then SplitLines(text) else WithoutLastEmpty(SplitLines(text))
  {
    if EndsWithBreak(text) {
      SplitTerminated(SplitLines(text), ending);
    } else {
      SplitJoined(SplitLines(text), ending);
    }
  }

  /** Joining lines, normalizing, and reading back through any other line ending. */
  lemma RoundTrip(lines: seq<string>, ending: LineEnding, other: LineEnding)
    requires Unbroken(lines)
    ensures var draft := NormalizeLineEndings(Join("\n", lines), ending);
            SplitLines(NormalizeLineEndings(draft, other)) == WithoutLastEmpty(lines)
  {
    var joined := Join("\n", lines);
    var kept := WithoutLastEmpty(lines);
    assert LF.Separator() == "\n";
    SplitJoined(lines, LF);
    JoinEndsWithBreak(lines, LF);
    var draft := NormalizeLineEndings(joined, ending);
    NormalizedLines(draft, other);
    if EndsWithBreak(joined) {
      SplitTerminated(kept, ending);
    } else {
      assert kept == [] || kept[|kept| - 1] != "";
      SplitJoined(kept, ending);
      JoinEndsWithBreak(kept, ending);
    }
  }
}
