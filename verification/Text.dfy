/** The Python string primitives the text kernels rely on. */
module Text {
  import opened Wrappers

  /** str.isspace, str.strip and the regular expression class \s agree on this set. */
  predicate IsSpace(c: char) {
    || '\t' <= c <= '\r' || '\U{1C}' <= c <= ' ' || c == '\U{85}' || c == '\U{A0}' || c == '\U{1680}'
    || '\U{2000}' <= c <= '\U{200A}' || c == '\U{2028}' || c == '\U{2029}' || c == '\U{202F}'
    || c == '\U{205F}' || c == '\U{3000}'
  }

  /** True when no character of `s` is visible. */
  predicate Blank(s: string) {
    forall c :: c in s ==> IsSpace(c)
  }

  function RStrip(s: string): (r: string)
    ensures |r| <= |s|
  {
    if s == [] || !IsSpace(s[|s| - 1]) then s else RStrip(s[..|s| - 1])
  }

  function LStrip(s: string): (r: string)
    ensures |r| <= |s|
  {
    if s == [] || !IsSpace(s[0]) then s else LStrip(s[1..])
  }

  function Strip(s: string): (r: string)
    ensures |r| <= |s|
  {
    LStrip(RStrip(s))
  }

  /** What rstrip removes is space, and what it keeps ends visibly. */
  lemma {:induction false} RStripShape(s: string)
    ensures RStrip(s) == s[..|RStrip(s)|] && Blank(s[|RStrip(s)|..])
    ensures RStrip(s) != [] ==> !IsSpace(RStrip(s)[|RStrip(s)| - 1])
    ensures RStrip(s) == [] <==> Blank(s)
  {
    if s != [] {
      var last := |s| - 1;
      if IsSpace(s[last]) {
        RStripShape(s[..last]);
        var r := RStrip(s);
        assert s[|r|..] == s[..last][|r|..] + [s[last]];
        assert s == s[..last] + [s[last]];
      } else {
        assert s[last] in s;
      }
    }
  }

  lemma {:induction false} LStripShape(s: string)
    ensures LStrip(s) == s[|s| - |LStrip(s)|..] && Blank(s[..|s| - |LStrip(s)|])
    ensures LStrip(s) != [] ==> !IsSpace(LStrip(s)[0])
    ensures LStrip(s) == [] <==> Blank(s)
  {
    if s != [] {
      if IsSpace(s[0]) {
        LStripShape(s[1..]);
        var n := |s| - |LStrip(s)|;
        assert s[..n] == [s[0]] + s[1..][..n - 1];
        assert s == [s[0]] + s[1..];
      } else {
        assert s[0] in s;
      }
    }
  }

  /** A full strip leaves nothing exactly for blank text, and otherwise visible ends. */
  lemma StripShape(s: string)
    ensures Strip(s) == [] <==> Blank(s)
    ensures Strip(s) != [] ==> !IsSpace(Strip(s)[0]) && !IsSpace(Strip(s)[|Strip(s)| - 1])
  {
    var r := RStrip(s);
    RStripShape(s);
    LStripShape(r);
    if Strip(s) != [] {
      assert Strip(s)[|Strip(s)| - 1] == r[|r| - 1];
    }
  }

  /** First position at or after `i` that is not space. */
  function SkipSpace(s: string, i: nat): (j: nat)
    requires i <= |s|
    ensures i <= j <= |s|
    ensures forall k :: i <= k < j ==> IsSpace(s[k])
    decreases |s| - i
  {
    if i < |s| && IsSpace(s[i]) then SkipSpace(s, i + 1) else i
  }

  /** Does `part` occur in `s` at position `at`? */
  predicate OccursAt(part: string, s: string, at: nat) {
    at + |part| <= |s| && s[at..at + |part|] == part
  }

  /** `part in s`. */
  ghost predicate Occurs(part: string, s: string) {
    exists at: nat :: OccursAt(part, s, at)
  }

  /** s.find(part, from): the first occurrence at or after `from`. */
  method Find(s: string, part: string, from: nat) returns (r: Option<nat>)
    ensures r.Some? ==> r.value >= from && OccursAt(part, s, r.value)
                        && forall k: nat :: from <= k < r.value ==> !OccursAt(part, s, k)
    ensures r.None? ==> forall k: nat :: from <= k ==> !OccursAt(part, s, k)
  {
    var i := from;
    while i + |part| <= |s|
      invariant from <= i
      invariant forall k: nat :: from <= k < i ==> !OccursAt(part, s, k)
    {
      if OccursAt(part, s, i) {
        return Some(i);
      }
      i := i + 1;
    }
    r := None;
  }

  lemma {:induction false} RStripFixed(s: string)
    requires s != [] ==> !IsSpace(s[|s| - 1])
    ensures RStrip(s) == s
  {
  }

  /** Removing trailing space first makes no difference to a full strip. */
  lemma {:induction false} StripRStrip(s: string)
    ensures Strip(RStrip(s)) == Strip(s)
  {
    RStripShape(s);
    RStripFixed(RStrip(s));
  }
}
