/**
 JSON values as the program builds them: objects keep the order of their keys,
 and serialization is json.dumps(ensure_ascii=False, separators=(",", ":")).
 */
module Json {
  import opened Wrappers

  datatype Json =
    | Null
    | Bool(flag: bool)
    | Number(n: int)
    | Text(text: string)
    | Array(items: seq<Json>)
    | Object(fields: seq<Field>)

  datatype Field = Field(key: string, value: Json)

  // ----- serialization -----

  function HexDigit(k: nat): char
    requires k < 16
  {
    if k < 10 then ('0' as int + k) as char else ('a' as int + k - 10) as char
  }

  function Escape(c: char): string {
    if c == '"' then "\\\""
    else if c == '\\' then "\\\\"
    else if c == '\n' then "\\n"
    else if c == '\r' then "\\r"
    else if c == '\t' then "\\t"
    else if c == '\U{08}' then "\\b"
    else if c == '\U{0C}' then "\\f"
    else if c < ' ' then "\\u00" + [HexDigit(c as int / 16), HexDigit(c as int % 16)]
    else [c]
  }

  function Escaped(s: string): string {
    if s == "" then "" else Escape(s[0]) + Escaped(s[1..])
  }

  function Quoted(s: string): string {
    "\"" + Escaped(s) + "\""
  }

  function Digits(n: nat): string {
    if n < 10 then [HexDigit(n)] else Digits(n / 10) + [HexDigit(n % 10)]
  }

  function Numeral(n: int): string {
    if n < 0 then "-" + Digits(-n) else Digits(n)
  }

  function Dumps(v: Json): string {
    match v
    case Null => "null"
    case Bool(flag) => if flag then "true" else "false"
    case Number(n) => Numeral(n)
    case Text(text) => Quoted(text)
    case Array(items) => "[" + DumpsItems(items) + "]"
    case Object(fields) => "{" + DumpsFields(fields) + "}"
  }

  function DumpsItems(items: seq<Json>): string {
    if items == [] then ""
    else if |items| == 1 then Dumps(items[0])
    else Dumps(items[0]) + "," + DumpsItems(items[1..])
  }

  function DumpsFields(fields: seq<Field>): string {
    if fields == [] then ""
    else
      var head := Quoted(fields[0].key) + ":" + Dumps(fields[0].value);
      if |fields| == 1 then head else head + "," + DumpsFields(fields[1..])
  }

  // ----- size -----

  /** The serialized length, computed without serializing. */
  function Size(v: Json): nat {
    match v
    case Null => 4
    case Bool(flag) => if flag then 4 else 5
    case Number(n) => |Numeral(n)|
    case Text(text) => TextSize(text)
    case Array(items) => 2 + ItemsSize(items)
    case Object(fields) => 2 + FieldsSize(fields)
  }

  function TextSize(s: string): nat {
    2 + EscapedSize(s)
  }

  function EscapedSize(s: string): nat {
    SizeFrom(s, 0)
  }

  function SizeFrom(s: string, i: nat): nat
    requires i <= |s|
    decreases |s| - i
  {
    if i == |s| then 0 else EscapeSize(s[i]) + SizeFrom(s, i + 1)
  }

  /** A character that is serialized as itself. */
  predicate Plain(c: char) {
    ' ' <= c && c != '"' && c != '\\'
  }

  /** The characters with an escape of their own. */
  predicate HasShortEscape(c: char) {
    c == '"' || c == '\\' || c == '\n' || c == '\r' || c == '\t' || c == '\U{08}' || c == '\U{0C}'
  }

  function EscapeSize(c: char): (n: nat)
    ensures n == |Escape(c)|
  {
    if Plain(c) then 1 else if HasShortEscape(c) then 2 else 6
  }

  function ItemsSize(items: seq<Json>): nat {
    if items == [] then 0 else Size(items[0]) + (if |items| == 1 then 0 else 1) + ItemsSize(items[1..])
  }

  function FieldSize(f: Field): nat {
    TextSize(f.key) + 1 + Size(f.value)
  }

  function FieldsSize(fields: seq<Field>): nat {
    if fields == [] then 0 else FieldSize(fields[0]) + (if |fields| == 1 then 0 else 1) + FieldsSize(fields[1..])
  }

  lemma {:induction false} EscapedLength(s: string, i: nat)
    requires i <= |s|
    ensures |Escaped(s[i..])| == SizeFrom(s, i)
    decreases |s| - i
  {
    if i < |s| {
      EscapedLength(s, i + 1);
      assert s[i..][1..] == s[i + 1..];
    }
  }

  lemma TextLength(s: string)
    ensures |Quoted(s)| == TextSize(s)
  {
    EscapedLength(s, 0);
    assert s[0..] == s;
  }

  /** The size is the length of the serialization. */
  lemma {:induction false} SizeIsLength(v: Json)
    ensures |Dumps(v)| == Size(v)
  {
    match v
    case Text(text) => TextLength(text);
    case Array(items) => ItemsLength(items);
    case Object(fields) => FieldsLength(fields);
    case _ =>
  }

  lemma {:induction false} ItemsLength(items: seq<Json>)
    ensures |DumpsItems(items)| == ItemsSize(items)
  {
    if items != [] {
      SizeIsLength(items[0]);
      ItemsLength(items[1..]);
    }
  }

  lemma {:induction false} FieldsLength(fields: seq<Field>)
    ensures |DumpsFields(fields)| == FieldsSize(fields)
  {
    if fields != [] {
      TextLength(fields[0].key);
      SizeIsLength(fields[0].value);
      FieldsLength(fields[1..]);
    }
  }

  /** A longer prefix is never serialized shorter. */
  lemma {:induction false} PrefixSize(s: string, j: nat, k: nat)
    requires j <= k <= |s|
    ensures TextSize(s[..j]) <= TextSize(s[..k])
  {
    PrefixSizeFrom(s, j, k, 0);
  }

  lemma {:induction false} PrefixSizeFrom(s: string, j: nat, k: nat, i: nat)
    requires i <= j <= k <= |s|
    ensures SizeFrom(s[..j], i) <= SizeFrom(s[..k], i)
    decreases j - i
  {
    if i < j {
      assert s[..j][i] == s[..k][i];
      PrefixSizeFrom(s, j, k, i + 1);
    }
  }

  predicate AllPlain(s: string) {
    forall k :: 0 <= k < |s| ==> Plain(s[k])
  }

  lemma {:induction false} PlainSizeFrom(s: string, i: nat)
    requires i <= |s| && AllPlain(s)
    ensures SizeFrom(s, i) == |s| - i
    decreases |s| - i
  {
    if i < |s| {
      PlainSizeFrom(s, i + 1);
    }
  }

  lemma PlainSize(s: string)
    requires AllPlain(s)
    ensures TextSize(s) == |s| + 2
  {
    PlainSizeFrom(s, 0);
  }

  lemma {:induction false} SizeAtLeastFrom(s: string, i: nat)
    requires i <= |s|
    ensures SizeFrom(s, i) >= |s| - i
    decreases |s| - i
  {
    if i < |s| {
      SizeAtLeastFrom(s, i + 1);
    }
  }

  /** No character is serialized shorter than it is. */
  lemma SizeAtLeast(s: string)
    ensures TextSize(s) >= |s| + 2
  {
    SizeAtLeastFrom(s, 0);
  }

  lemma {:induction false} DigitsGrow(m: nat, n: nat)
    requires m <= n
    ensures |Digits(m)| <= |Digits(n)|
  {
    if m >= 10 {
      DigitsGrow(m / 10, n / 10);
    }
  }

  // ----- dictionaries -----

  /** d.get(key) */
  function Get(fields: seq<Field>, key: string): Option<Json> {
    if fields == [] then None
    else if fields[0].key == key then Some(fields[0].value)
    else Get(fields[1..], key)
  }

  /** d[key] = value: in place where the key stands, or at the end. */
  function Put(fields: seq<Field>, key: string, value: Json): (r: seq<Field>)
    ensures r != []
  {
    if fields == [] then [Field(key, value)]
    else if fields[0].key == key then [Field(key, value)] + fields[1..]
    else [fields[0]] + Put(fields[1..], key, value)
  }

  /** d.pop(key, None) */
  function Remove(fields: seq<Field>, key: string): seq<Field> {
    if fields == [] then []
    else if fields[0].key == key then fields[1..]
    else [fields[0]] + Remove(fields[1..], key)
  }

  lemma {:induction false} GetAt(fields: seq<Field>, key: string, i: nat)
    requires i < |fields| && fields[i].key == key && forall j :: 0 <= j < i ==> fields[j].key != key
    ensures Get(fields, key) == Some(fields[i].value)
  {
    if i > 0 {
      GetAt(fields[1..], key, i - 1);
    }
  }

  lemma {:induction false} GetNone(fields: seq<Field>, key: string)
    requires forall j :: 0 <= j < |fields| ==> fields[j].key != key
    ensures Get(fields, key) == None
  {
    if fields != [] {
      GetNone(fields[1..], key);
    }
  }

  lemma {:induction false} GetPut(fields: seq<Field>, key: string, value: Json, k: string)
    ensures Get(Put(fields, key, value), k) == if k == key then Some(value) else Get(fields, k)
  {
    if fields != [] && fields[0].key != key {
      GetPut(fields[1..], key, value, k);
      assert ([fields[0]] + Put(fields[1..], key, value))[1..] == Put(fields[1..], key, value);
    } else if fields != [] {
      assert ([Field(key, value)] + fields[1..])[1..] == fields[1..];
    }
  }

  /** Writing back what is there changes nothing. */
  lemma {:induction false} PutSame(fields: seq<Field>, key: string, value: Json)
    requires Get(fields, key) == Some(value)
    ensures Put(fields, key, value) == fields
  {
    if fields[0].key == key {
      assert fields == [fields[0]] + fields[1..];
    } else {
      PutSame(fields[1..], key, value);
      assert fields == [fields[0]] + fields[1..];
    }
  }

  lemma {:induction false} PutAgain(fields: seq<Field>, key: string, value: Json, next: Json)
    ensures Put(Put(fields, key, value), key, next) == Put(fields, key, next)
  {
    if fields != [] && fields[0].key != key {
      PutAgain(fields[1..], key, value, next);
      assert ([fields[0]] + Put(fields[1..], key, value))[1..] == Put(fields[1..], key, value);
    } else if fields != [] {
      assert ([Field(key, value)] + fields[1..])[1..] == fields[1..];
    }
  }

  /** What writing a value costs beside the value itself. */
  function PutCost(fields: seq<Field>, key: string): int {
    match Get(fields, key)
    case Some(present) => 0 - Size(present)
    case None => TextSize(key) + 1 + (if fields == [] then 0 else 1)
  }

  /** A field is part of what its object costs. */
  lemma {:induction false} GetCost(fields: seq<Field>, key: string)
    requires Get(fields, key).Some?
    ensures FieldsSize(fields) >= Size(Get(fields, key).value)
  {
    if fields[0].key != key {
      GetCost(fields[1..], key);
    }
  }

  lemma {:induction false} PutSize(fields: seq<Field>, key: string, value: Json)
    ensures FieldsSize(Put(fields, key, value)) == FieldsSize(fields) + PutCost(fields, key) + Size(value)
  {
    if fields == [] {
    } else if fields[0].key == key {
      assert ([Field(key, value)] + fields[1..])[1..] == fields[1..];
    } else {
      var rest := Put(fields[1..], key, value);
      PutSize(fields[1..], key, value);
      assert ([fields[0]] + rest)[1..] == rest;
    }
  }
}
