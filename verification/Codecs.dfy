/** UTF-8, and base64url as section 5 of RFC 4648 defines it, with their round trips. */
module Codecs {
  import opened Wrappers

  type Byte = b: nat | b < 256

  // ----- UTF-8 -----

  function EncodeChar(c: char): (r: seq<Byte>)
    ensures 1 <= |r| <= 4
  {
    var n := c as int;
    if n < 0x80 then [n]
    else if n < 0x800 then [0xC0 + n / 64, 0x80 + n % 64]
    else if n < 0x10000 then [0xE0 + n / 4096, 0x80 + n / 64 % 64, 0x80 + n % 64]
    else [0xF0 + n / 262144, 0x80 + n / 4096 % 64, 0x80 + n / 64 % 64, 0x80 + n % 64]
  }

  function EncodeUtf8(s: string): seq<Byte> {
    if s == "" then [] else EncodeChar(s[0]) + EncodeUtf8(s[1..])
  }

  predicate IsContinuation(b: Byte) {
    0x80 <= b < 0xC0
  }

  /** The character of a code point, if it is one and was encoded in no more bytes than needed. */
  function Scalar(n: nat, least: nat): Option<char> {
    if n < least || 0xD800 <= n < 0xE000 || n >= 0x110000 then None else Some(n as char)
  }

  /** The first character, and how many bytes it takes. */
  function DecodeChar(b: seq<Byte>): (r: Option<(char, nat)>)
    ensures r.Some? ==> 0 < r.value.1 <= |b|
  {
    if b == [] then None
    else if b[0] < 0x80 then Some((b[0] as char, 1))
    else if 0xC0 <= b[0] < 0xE0 then
      if |b| < 2 || !IsContinuation(b[1]) then None
      else match Scalar((b[0] as int - 0xC0) * 64 + (b[1] as int - 0x80), 0x80) case Some(c) => Some((c, 2)) case None => None
    else if 0xE0 <= b[0] < 0xF0 then
      if |b| < 3 || !IsContinuation(b[1]) || !IsContinuation(b[2]) then None
      else match Scalar((b[0] as int - 0xE0) * 4096 + (b[1] as int - 0x80) * 64 + (b[2] as int - 0x80), 0x800)
        case Some(c) => Some((c, 3)) case None => None
    else if 0xF0 <= b[0] < 0xF8 then
      if |b| < 4 || !IsContinuation(b[1]) || !IsContinuation(b[2]) || !IsContinuation(b[3]) then None
      else match Scalar((b[0] as int - 0xF0) * 262144 + (b[1] as int - 0x80) * 4096 + (b[2] as int - 0x80) * 64 + (b[3] as int - 0x80), 0x10000)
        case Some(c) => Some((c, 4)) case None => None
    else None
  }

  function DecodeUtf8(b: seq<Byte>): Option<string> {
    if b == [] then Some("")
    else match DecodeChar(b)
      case None => None
      case Some((c, n)) =>
        match DecodeUtf8(b[n..]) case None => None case Some(rest) => Some([c] + rest)
  }

  lemma CharDecodes(c: char, rest: seq<Byte>)
    ensures DecodeChar(EncodeChar(c) + rest) == Some((c, |EncodeChar(c)|))
  {
    var n, b := c as int, EncodeChar(c) + rest;
    assert b[0] == EncodeChar(c)[0];
    if n >= 0x10000 {
      FourBytes(n);
      assert b[1] == EncodeChar(c)[1] && b[2] == EncodeChar(c)[2] && b[3] == EncodeChar(c)[3];
    } else if n >= 0x800 {
      ThreeBytes(n);
      assert b[1] == EncodeChar(c)[1] && b[2] == EncodeChar(c)[2];
    } else if n >= 0x80 {
      assert b[1] == EncodeChar(c)[1];
    }
  }

  lemma FourBytes(n: nat)
    ensures n / 262144 * 262144 + n / 4096 % 64 * 4096 + n / 64 % 64 * 64 + n % 64 == n
  {
    assert n / 4096 == n / 262144 * 64 + n / 4096 % 64;
    ThreeBytes(n);
  }

  lemma ThreeBytes(n: nat)
    ensures n / 4096 * 4096 + n / 64 % 64 * 64 + n % 64 == n
  {
    assert n / 64 == n / 4096 * 64 + n / 64 % 64;
  }

  /** Decoding what was encoded gives the same text. */
  lemma {:induction false} Utf8RoundTrip(s: string)
    ensures DecodeUtf8(EncodeUtf8(s)) == Some(s)
  {
    if s != "" {
      var head, rest := EncodeChar(s[0]), EncodeUtf8(s[1..]);
      CharDecodes(s[0], rest);
      Utf8RoundTrip(s[1..]);
      assert (head + rest)[|head|..] == rest;
      assert s == [s[0]] + s[1..];
    }
  }

  predicate IsAscii(s: string) {
    forall k :: 0 <= k < |s| ==> s[k] as int < 0x80
  }

  /** ASCII text has as many bytes as characters. */
  lemma {:induction false} AsciiLength(s: string)
    requires IsAscii(s)
    ensures |EncodeUtf8(s)| == |s|
  {
    if s != "" {
      AsciiLength(s[1..]);
    }
  }

  // ----- base64url -----

  function Letter(k: nat): char
    requires k < 64
  {
    if k < 26 then ('A' as int + k) as char
    else if k < 52 then ('a' as int + k - 26) as char
    else if k < 62 then ('0' as int + k - 52) as char
    else if k == 62 then '-' else '_'
  }

  function LetterValue(c: char): (k: Option<nat>)
    ensures k.Some? ==> k.value < 64
  {
    if 'A' <= c <= 'Z' then Some(c as int - 'A' as int)
    else if 'a' <= c <= 'z' then Some(c as int - 'a' as int + 26)
    else if '0' <= c <= '9' then Some(c as int - '0' as int + 52)
    else if c == '-' then Some(62)
    else if c == '_' then Some(63)
    else None
  }

  lemma LetterReads(k: nat)
    requires k < 64
    ensures LetterValue(Letter(k)) == Some(k) && Letter(k) != '='
  {
  }

  /** The encoding without its padding. */
  function Unpadded(b: seq<Byte>): string {
    if b == [] then ""
    else if |b| == 1 then [Letter(b[0] / 4), Letter(b[0] % 4 * 16)]
    else if |b| == 2 then [Letter(b[0] / 4), Letter(b[0] % 4 * 16 + b[1] / 16), Letter(b[1] % 16 * 4)]
    else
      [Letter(b[0] / 4), Letter(b[0] % 4 * 16 + b[1] / 16), Letter(b[1] % 16 * 4 + b[2] / 64), Letter(b[2] % 64)]
      + Unpadded(b[3..])
  }

  /** The padding of an encoding: = signs up to a multiple of four characters. */
  function Padding(length: nat): string {
    if length % 4 == 2 then "==" else if length % 4 == 3 then "=" else if length % 4 == 1 then "===" else ""
  }

  function EncodeBase64(b: seq<Byte>): string {
    Unpadded(b) + Padding(|Unpadded(b)|)
  }

  /** str.rstrip("=") */
  function StripPadding(s: string): (r: string)
    ensures |r| <= |s|
  {
    if s != "" && s[|s| - 1] == '=' then StripPadding(s[..|s| - 1]) else s
  }

  /** Decodes whole groups of four characters; only the last may be padded. */
  function DecodeBase64(s: string): Option<seq<Byte>> {
    if s == "" then Some([])
    else if |s| < 4 then None
    else
      var a, b, c, d := LetterValue(s[0]), LetterValue(s[1]), LetterValue(s[2]), LetterValue(s[3]);
      if a.None? || b.None? then None
      else if |s| == 4 && s[2] == '=' && s[3] == '=' then Some([a.value * 4 + b.value / 16])
      else if c.None? then None
      else if |s| == 4 && s[3] == '=' then Some([a.value * 4 + b.value / 16, b.value % 16 * 16 + c.value / 4])
      else if d.None? then None
      else match DecodeBase64(s[4..])
        case None => None
        case Some(rest) =>
          Some([a.value * 4 + b.value / 16, b.value % 16 * 16 + c.value / 4, c.value % 4 * 64 + d.value] + rest)
  }

  lemma {:induction false} UnpaddedShape(b: seq<Byte>)
    ensures |Unpadded(b)| == (4 * |b| + 2) / 3 && |Unpadded(b)| % 4 != 1
    ensures b != [] ==> Unpadded(b) != "" && Unpadded(b)[|Unpadded(b)| - 1] != '='
  {
    if |b| > 2 {
      UnpaddedShape(b[3..]);
      LetterReads(b[2] % 64);
    } else if |b| == 2 {
      LetterReads(b[1] % 16 * 4);
    } else if |b| == 1 {
      LetterReads(b[0] % 4 * 16);
    }
  }

  lemma GroupDecodes(x: Byte, y: Byte, z: Byte)
    ensures x / 4 * 4 + (x % 4 * 16 + y / 16) / 16 == x
    ensures (x % 4 * 16 + y / 16) % 16 * 16 + (y % 16 * 4 + z / 64) / 4 == y
    ensures (y % 16 * 4 + z / 64) % 4 * 64 + z % 64 == z
  {
  }

  lemma OneByteDecodes(x: Byte)
    ensures DecodeBase64(EncodeBase64([x])) == Some([x])
  {
    LetterReads(x / 4);
    LetterReads(x % 4 * 16);
    GroupDecodes(x, 0, 0);
    assert EncodeBase64([x]) == [Letter(x / 4), Letter(x % 4 * 16), '=', '='];
  }

  lemma TwoBytesDecode(x: Byte, y: Byte)
    ensures DecodeBase64(EncodeBase64([x, y])) == Some([x, y])
  {
    LetterReads(x / 4);
    LetterReads(x % 4 * 16 + y / 16);
    LetterReads(y % 16 * 4);
    GroupDecodes(x, y, 0);
    assert EncodeBase64([x, y]) == [Letter(x / 4), Letter(x % 4 * 16 + y / 16), Letter(y % 16 * 4), '='];
  }

  /** Decoding the padded encoding gives the bytes back. */
  lemma {:induction false} Base64Decodes(b: seq<Byte>)
    ensures DecodeBase64(EncodeBase64(b)) == Some(b)
  {
    if b == [] {
      assert EncodeBase64(b) == "";
    } else if |b| == 1 {
      OneByteDecodes(b[0]);
      assert b == [b[0]];
    } else if |b| == 2 {
      TwoBytesDecode(b[0], b[1]);
      assert b == [b[0], b[1]];
    } else {
      Base64Decodes(b[3..]);
      ThreeBytesDecode(b[0], b[1], b[2], b[3..]);
      assert b == [b[0], b[1], b[2]] + b[3..];
    }
  }

  lemma ThreeBytesDecode(x: Byte, y: Byte, z: Byte, rest: seq<Byte>)
    requires DecodeBase64(EncodeBase64(rest)) == Some(rest)
    ensures DecodeBase64(EncodeBase64([x, y, z] + rest)) == Some([x, y, z] + rest)
  {
    var b := [x, y, z] + rest;
    assert b[0] == x && b[1] == y && b[2] == z && b[3..] == rest;
    LongGroup(b);
    GroupReads(EncodeBase64(b), x, y, z, rest);
  }

  lemma GroupReads(s: string, x: Byte, y: Byte, z: Byte, rest: seq<Byte>)
    requires |s| >= 4 && DecodeBase64(s[4..]) == Some(rest)
    requires LetterValue(s[0]) == Some(x / 4) && LetterValue(s[1]) == Some(x % 4 * 16 + y / 16)
    requires LetterValue(s[2]) == Some(y % 16 * 4 + z / 64) && LetterValue(s[3]) == Some(z % 64)
    ensures DecodeBase64(s) == Some([x, y, z] + rest)
  {
    GroupStep(s, x / 4, x % 4 * 16 + y / 16, y % 16 * 4 + z / 64, z % 64, rest);
    GroupDecodes(x, y, z);
  }

  lemma GroupStep(s: string, k: nat, l: nat, m: nat, n: nat, rest: seq<Byte>)
    requires |s| >= 4 && DecodeBase64(s[4..]) == Some(rest) && k < 64 && l < 64 && m < 64 && n < 64
    requires LetterValue(s[0]) == Some(k) && LetterValue(s[1]) == Some(l)
    requires LetterValue(s[2]) == Some(m) && LetterValue(s[3]) == Some(n)
    ensures DecodeBase64(s) == Some([k * 4 + l / 16, l % 16 * 16 + m / 4, m % 4 * 64 + n] + rest)
  {
  }

  lemma Regroup(head: string, rest: string)
    requires |head| == 4
    ensures head + rest + Padding(|head + rest|) == head + (rest + Padding(|rest|))
    ensures (head + rest + Padding(|head + rest|))[4..] == rest + Padding(|rest|)
  {
    assert |head + rest| % 4 == |rest| % 4;
  }

  lemma LongGroup(b: seq<Byte>)
    requires |b| > 2
    ensures var s := EncodeBase64(b);
            && |s| >= 4 && s[4..] == EncodeBase64(b[3..])
            && LetterValue(s[0]) == Some(b[0] / 4) && LetterValue(s[1]) == Some(b[0] % 4 * 16 + b[1] / 16)
            && LetterValue(s[2]) == Some(b[1] % 16 * 4 + b[2] / 64) && LetterValue(s[3]) == Some(b[2] % 64)
  {
    LetterReads(b[0] / 4);
    LetterReads(b[0] % 4 * 16 + b[1] / 16);
    LetterReads(b[1] % 16 * 4 + b[2] / 64);
    LetterReads(b[2] % 64);
    var head := [Letter(b[0] / 4), Letter(b[0] % 4 * 16 + b[1] / 16), Letter(b[1] % 16 * 4 + b[2] / 64), Letter(b[2] % 64)];
    Regroup(head, Unpadded(b[3..]));
  }

  lemma StripsPadding(s: string)
    requires s != "" ==> s[|s| - 1] != '='
    ensures StripPadding(s + Padding(|s|)) == s
  {
    PaddingIsSigns(|s|);
    StripsSigns(s, |Padding(|s|)|);
  }

  lemma PaddingIsSigns(length: nat)
    ensures Padding(length) == Signs(|Padding(length)|)
  {
    assert Signs(1) == "=" && Signs(2) == "==" && Signs(3) == "===";
  }

  function Signs(n: nat): string {
    if n == 0 then "" else Signs(n - 1) + "="
  }

  lemma {:induction false} StripsSigns(s: string, n: nat)
    requires s != "" ==> s[|s| - 1] != '='
    ensures StripPadding(s + Signs(n)) == s
  {
    if n == 0 {
      assert s + Signs(0) == s;
    } else {
      StripsSigns(s, n - 1);
      assert (s + Signs(n))[..|s + Signs(n)| - 1] == s + Signs(n - 1);
    }
  }

  /** Dropping the padding and computing it again from the length loses nothing. */
  lemma Base64RoundTrip(b: seq<Byte>)
    ensures var s := StripPadding(EncodeBase64(b));
            s == Unpadded(b) && DecodeBase64(s + Padding(|s|)) == Some(b)
  {
    UnpaddedShape(b);
    StripsPadding(Unpadded(b));
    Base64Decodes(b);
  }
}
