/**
 What the removal of writing annotations removes, told without the scan that
 does it: each annotation in turn, and nothing else.
 */
module Annotations {
  import opened Wrappers
  import opened Text
  import opened PublicDraft

  /** A comment opens at `i`, and after nothing but space its text begins with "writing:" at `m`. */
  ghost predicate OpensAt(s: string, i: nat, m: nat) {
    && StartsAt("<!--", s, i) && i + 4 <= m
    && (forall k :: i + 4 <= k < m && k < |s| ==> IsSpace(s[k]))
    && StartsAt("writing:", s, m)
  }

  /** It closes before `j`, and not earlier. */
  ghost predicate ClosesAt(s: string, from: nat, j: nat) {
    from + 3 <= j && StartsAt("-->", s, j - 3) && forall k: nat :: from <= k < j - 3 ==> !StartsAt("-->", s, k)
  }

  /** s[i..j] is a writing annotation. */
  ghost predicate IsAnnotation(s: string, i: nat, j: nat) {
    exists m: nat :: OpensAt(s, i, m) && ClosesAt(s, m + 8, j)
  }

  lemma {:induction false} CloseIs(s: string, from: nat, j: nat)
    requires from <= |s|
    ensures CommentClose(s, from) == Some(j) <==> ClosesAt(s, from, j)
    decreases |s| - from
  {
    if !StartsAt("-->", s, from) && from < |s| {
      CloseIs(s, from + 1, j);
    }
  }

  lemma OpeningIs(s: string, i: nat, m: nat)
    ensures OpensAt(s, i, m) <==>
            StartsAt("<!--", s, i) && m == SkipSpace(s, i + 4) && StartsAt("writing:", s, m)
  {
    if StartsAt("<!--", s, i) {
      var first := SkipSpace(s, i + 4);
      SkipStops(s, i + 4);
      if OpensAt(s, i, m) {
        assert s[m] == 'w';
        assert !(m < first) && !(first < m);
      }
    }
  }

  lemma {:induction false} SkipStops(s: string, i: nat)
    requires i <= |s|
    ensures var j := SkipSpace(s, i); j < |s| ==> !IsSpace(s[j])
    decreases |s| - i
  {
    if i < |s| && IsSpace(s[i]) {
      SkipStops(s, i + 1);
    }
  }

  /** The scan finds exactly the annotations. */
  lemma ScanFindsAnnotations(s: string, i: nat, j: nat)
    ensures AnnotationEnd(s, i) == Some(j) <==> IsAnnotation(s, i, j)
  {
    if StartsAt("<!--", s, i) {
      var m := SkipSpace(s, i + 4);
      OpeningIs(s, i, m);
      if StartsAt("writing:", s, m) {
        CloseIs(s, m + 8, j);
      }
      if IsAnnotation(s, i, j) {
        var n: nat :| OpensAt(s, i, n) && ClosesAt(s, n + 8, j);
        OpeningIs(s, i, n);
      }
    }
  }

  // ----- what stays -----

  /** No annotation begins from `i` up to `to`. */
  ghost predicate NoneBetween(s: string, i: nat, to: nat) {
    forall k: nat, j: nat :: i <= k < to ==> !IsAnnotation(s, k, j)
  }

  lemma NothingEnds(s: string, i: nat)
    requires forall j: nat :: !IsAnnotation(s, i, j)
    ensures AnnotationEnd(s, i).None?
  {
    var end := AnnotationEnd(s, i);
    if end.Some? {
      ScanFindsAnnotations(s, i, end.value);
    }
  }

  lemma CopyStep(s: string, i: nat)
    requires i < |s| && AnnotationEnd(s, i).None?
    ensures StripAnnotations(s, i) == [s[i]] + StripAnnotations(s, i + 1)
  {
  }

  lemma Prepend(s: string, i: nat, to: nat, tail: string)
    requires i < to <= |s|
    ensures [s[i]] + (s[i + 1..to] + tail) == s[i..to] + tail
  {
  }

  lemma {:induction false} ScannedOver(s: string, i: nat, to: nat)
    requires i <= to <= |s| && forall k :: i <= k < to ==> AnnotationEnd(s, k).None?
    ensures StripAnnotations(s, i) == s[i..to] + StripAnnotations(s, to)
    decreases |s| - i
  {
    if i < to {
      CopyStep(s, i);
      ScannedOver(s, i + 1, to);
      Prepend(s, i, to, StripAnnotations(s, to));
    }
  }

  lemma Copied(s: string, i: nat, to: nat)
    requires i <= to <= |s| && NoneBetween(s, i, to)
    ensures StripAnnotations(s, i) == s[i..to] + StripAnnotations(s, to)
  {
    forall k | i <= k < to ensures AnnotationEnd(s, k).None? {
      NothingEnds(s, k);
    }
    ScannedOver(s, i, to);
  }

  lemma {:induction false} NeverLonger(s: string, i: nat)
    requires i <= |s|
    ensures |StripAnnotations(s, i)| <= |s| - i
    decreases |s| - i
  {
    if i < |s| {
      match AnnotationEnd(s, i)
      case Some(j) =>
        NeverLonger(s, j);
        FewLineFeeds(s[i..j]);
      case None => NeverLonger(s, i + 1);
    }
  }

  lemma {:induction false} FewLineFeeds(s: string)
    ensures LineFeeds(s) <= |s|
    ensures s != "" && s[0] != '\n' ==> LineFeeds(s) < |s|
  {
    if s != "" {
      FewLineFeeds(s[1..]);
    }
  }

  lemma BeginsWithBracket(s: string, i: nat, end: nat)
    requires AnnotationEnd(s, i) == Some(end)
    ensures i < end <= |s| && s[i..end] != "" && s[i..end][0] != '\n'
  {
    assert s[i] == s[i..i + 4][0];
  }

  lemma {:induction false} Shorter(s: string, i: nat, k: nat, j: nat)
    requires i <= k <= |s| && IsAnnotation(s, k, j)
    ensures |StripAnnotations(s, i)| < |s| - i
    decreases |s| - i
  {
    ScanFindsAnnotations(s, k, j);
    match AnnotationEnd(s, i)
    case Some(end) =>
      BeginsWithBracket(s, i, end);
      FewLineFeeds(s[i..end]);
      NeverLonger(s, end);
    case None => Shorter(s, i + 1, k, j);
  }

  /** A text is left unchanged just when it holds no annotation. */
  lemma UnchangedIff(s: string)
    ensures StripAnnotations(s) == s <==> forall i: nat, j: nat :: !IsAnnotation(s, i, j)
  {
    if i: nat, j: nat :| IsAnnotation(s, i, j) {
      Shorter(s, 0, i, j);
    } else {
      Copied(s, 0, |s|);
      assert s[0..|s|] == s;
    }
  }

  // ----- what goes -----

  lemma StartsWithin(part: string, s: string, from: nat, to: nat, k: nat)
    requires from <= k && k + |part| <= to <= |s|
    ensures StartsAt(part, s, k) <==> StartsAt(part, s[from..to], k - from)
  {
    var slice, inner := s[k..k + |part|], s[from..to][k - from..k - from + |part|];
    forall x | 0 <= x < |part| ensures slice[x] == inner[x] {
      assert inner[x] == s[from..to][k - from + x];
    }
    assert slice == inner;
  }

  lemma StartsFrom(part: string, s: string, at: nat, i: nat)
    requires at <= |s|
    ensures StartsAt(part, s, at + i) <==> StartsAt(part, s[at..], i)
  {
    if at + i + |part| <= |s| {
      StartsWithin(part, s, at, |s|, at + i);
      assert s[at..|s|] == s[at..];
    }
  }

  lemma {:induction false} CloseFrom(s: string, at: nat, i: nat)
    requires at + i <= |s|
    ensures CommentClose(s, at + i) == match CommentClose(s[at..], i) case Some(j) => Some(at + j) case None => None
    decreases |s| - at - i
  {
    StartsFrom("-->", s, at, i);
    if at + i < |s| {
      CloseFrom(s, at, i + 1);
    }
  }

  lemma {:induction false} SkipFrom(s: string, at: nat, i: nat)
    requires at + i <= |s|
    ensures SkipSpace(s, at + i) == at + SkipSpace(s[at..], i)
    decreases |s| - at - i
  {
    if at + i < |s| {
      SkipFrom(s, at, i + 1);
    }
  }

  /** An end found `at` characters earlier. */
  function Later(at: nat, end: Option<nat>): Option<nat> {
    match end case Some(j) => Some(at + j) case None => None
  }

  /** The end of an annotation whose text begins at `m`. */
  function EndAfter(s: string, m: nat): Option<nat> {
    if StartsAt("writing:", s, m) then CommentClose(s, m + 8) else None
  }

  lemma WritingFrom(s: string, at: nat, m: nat)
    requires at + m <= |s|
    ensures EndAfter(s, at + m) == Later(at, EndAfter(s[at..], m))
  {
    StartsFrom("writing:", s, at, m);
    if StartsAt("writing:", s, at + m) {
      CloseFrom(s, at, m + 8);
    }
  }

  lemma EndOf(s: string, i: nat)
    ensures AnnotationEnd(s, i) == if StartsAt("<!--", s, i) then EndAfter(s, SkipSpace(s, i + 4)) else None
  {
  }

  lemma EndFrom(s: string, at: nat, i: nat)
    requires at + i <= |s|
    ensures AnnotationEnd(s, at + i) == Later(at, AnnotationEnd(s[at..], i))
  {
    EndOf(s, at + i);
    EndOf(s[at..], i);
    StartsFrom("<!--", s, at, i);
    if StartsAt("<!--", s, at + i) {
      OpenedFrom(s, at, i);
    }
  }

  lemma OpenedFrom(s: string, at: nat, i: nat)
    requires at + i + 4 <= |s|
    ensures EndAfter(s, SkipSpace(s, at + i + 4)) == Later(at, EndAfter(s[at..], SkipSpace(s[at..], i + 4)))
  {
    SkipFrom(s, at, i + 4);
    WritingFrom(s, at, SkipSpace(s[at..], i + 4));
  }

  /** What follows an annotation is treated as a text of its own. */
  lemma {:induction false} StripFrom(s: string, at: nat, i: nat)
    requires at + i <= |s|
    ensures StripAnnotations(s, at + i) == StripAnnotations(s[at..], i)
    decreases |s| - at - i
  {
    if at + i < |s| {
      EndFrom(s, at, i);
      match AnnotationEnd(s[at..], i)
      case Some(j) =>
        StripFrom(s, at, j);
        assert s[at..][i..j] == s[at + i..at + j];
      case None => StripFrom(s, at, i + 1);
    }
  }

  lemma StripStep(s: string, i: nat, j: nat)
    requires i < |s| && AnnotationEnd(s, i) == Some(j)
    ensures StripAnnotations(s, i) == Repeat('\n', LineFeeds(s[i..j])) + StripAnnotations(s, j)
  {
  }

  lemma StripAt(s: string, i: nat, j: nat)
    requires i < j <= |s| && AnnotationEnd(s, i) == Some(j)
    ensures StripAnnotations(s, i) == Repeat('\n', LineFeeds(s[i..j])) + StripAnnotations(s[j..])
  {
    StripStep(s, i, j);
    StripFrom(s, j, 0);
  }

  /** The first annotation leaves its line feeds, the text before it stays, and the text behind it is stripped in turn. */
  lemma FirstIsRemoved(s: string, i: nat, j: nat)
    requires i < j <= |s| && IsAnnotation(s, i, j) && NoneBetween(s, 0, i)
    ensures StripAnnotations(s) == s[..i] + Repeat('\n', LineFeeds(s[i..j])) + StripAnnotations(s[j..])
  {
    ScanFindsAnnotations(s, i, j);
    Copied(s, 0, i);
    StripAt(s, i, j);
    JoinThree(s[..i], Repeat('\n', LineFeeds(s[i..j])), StripAnnotations(s[j..]));
  }

  lemma JoinThree(a: string, b: string, c: string)
    ensures a + (b + c) == a + b + c
  {
  }

  /** A text without comments, and the parts of an annotation put behind it. */
  function Annotated(a: string, space: string, body: string, b: string): string {
    a + "<!--" + space + "writing:" + body + "-->" + b
  }

  ghost predicate Lacks(part: string, s: string) {
    forall k: nat :: !StartsAt(part, s, k)
  }

  lemma AnnotatedParts(a: string, space: string, body: string, b: string)
    ensures var s, i, m := Annotated(a, space, body, b), |a|, |a| + 4 + |space|;
            var j := m + 8 + |body| + 3;
            && j <= |s| && s[..i] == a && s[j..] == b
            && s[i..j] == "<!--" + space + "writing:" + body + "-->"
            && StartsAt("<!--", s, i) && s[i + 4..m] == space && StartsAt("writing:", s, m)
            && s[m + 8..j - 3] == body && StartsAt("-->", s, j - 3)
  {
  }

  lemma OneBracket(s: string, k: nat, at: nat)
    requires StartsAt("<!--", s, k) && k < at < k + 4
    ensures s[at] != '<'
  {
    assert s[at] == s[k..k + 4][at - k];
  }

  lemma LastIsBracket(s: string, k: nat)
    requires StartsAt("-->", s, k)
    ensures s[k] == '-' && s[k + 1] == '-' && s[k + 2] == '>'
  {
    assert s[k] == s[k..k + 3][0] && s[k + 1] == s[k..k + 3][1] && s[k + 2] == s[k..k + 3][2];
  }

  lemma BeginsThere(a: string, space: string, body: string, b: string)
    requires Lacks("<!--", a)
    ensures NoneBetween(Annotated(a, space, body, b), 0, |a|)
  {
    var s := Annotated(a, space, body, b);
    AnnotatedParts(a, space, body, b);
    assert s[|a|] == s[|a|..|a| + 4][0] == '<';
    forall k: nat | k < |a| ensures !StartsAt("<!--", s, k) {
      if k + 4 <= |a| {
        StartsWithin("<!--", s, 0, |a|, k);
        assert s[0..|a|] == a;
      } else if StartsAt("<!--", s, k) {
        OneBracket(s, k, |a|);
      }
    }
  }

  lemma ClosesThere(s: string, from: nat, j: nat)
    requires from + 3 <= j <= |s| && StartsAt("-->", s, j - 3) && Lacks("-->", s[from..j - 3])
    ensures ClosesAt(s, from, j)
  {
    LastIsBracket(s, j - 3);
    forall k: nat | from <= k < j - 3 ensures !StartsAt("-->", s, k) {
      if k + 3 <= j - 3 {
        StartsWithin("-->", s, from, j - 3, k);
      } else if StartsAt("-->", s, k) {
        LastIsBracket(s, k);
      }
    }
  }

  lemma OpensThere(s: string, i: nat, m: nat)
    requires StartsAt("<!--", s, i) && i + 4 <= m <= |s| && Blank(s[i + 4..m]) && StartsAt("writing:", s, m)
    ensures OpensAt(s, i, m)
  {
    forall k | i + 4 <= k < m ensures IsSpace(s[k]) {
      assert s[k] == s[i + 4..m][k - i - 4] && s[k] in s[i + 4..m];
    }
  }

  lemma EndsThere(a: string, space: string, body: string, b: string)
    requires Blank(space) && Lacks("-->", body)
    ensures IsAnnotation(Annotated(a, space, body, b), |a|, |a| + 4 + |space| + 8 + |body| + 3)
  {
    var s, m := Annotated(a, space, body, b), |a| + 4 + |space|;
    AnnotatedParts(a, space, body, b);
    OpensThere(s, |a|, m);
    ClosesThere(s, m + 8, m + 8 + |body| + 3);
    assert OpensAt(s, |a|, m) && ClosesAt(s, m + 8, m + 8 + |body| + 3);
  }

  lemma FeedsOfAnnotation(space: string, body: string)
    ensures LineFeeds("<!--" + space + "writing:" + body + "-->") == LineFeeds(space + body)
  {
    LineFeedsConcat("<!--" + space + "writing:" + body, "-->");
    LineFeedsConcat("<!--" + space + "writing:", body);
    LineFeedsConcat("<!--" + space, "writing:");
    LineFeedsConcat("<!--", space);
    LineFeedsConcat(space, body);
  }

  /** A writing annotation is replaced by its line feeds, whatever stands around it. */
  lemma AnnotationIsRemoved(a: string, space: string, body: string, b: string)
    requires Lacks("<!--", a) && Blank(space) && Lacks("-->", body)
    ensures StripAnnotations(a + "<!--" + space + "writing:" + body + "-->" + b)
            == a + Repeat('\n', LineFeeds(space + body)) + StripAnnotations(b)
  {
    var s := Annotated(a, space, body, b);
    AnnotatedParts(a, space, body, b);
    BeginsThere(a, space, body, b);
    EndsThere(a, space, body, b);
    FirstIsRemoved(s, |a|, |a| + 4 + |space| + 8 + |body| + 3);
    FeedsOfAnnotation(space, body);
  }
}
