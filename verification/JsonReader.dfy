/**
 json.loads for the values of this program, with the round trip through
 json.dumps.  Floating-point numbers and escaped surrogates are refused.
 */
module JsonReader {
  import opened Wrappers
  import opened Json

  type Parsed<T> = Option<(T, string)>

  predicate IsBlank(c: char) {
    c == ' ' || c == '\t' || c == '\n' || c == '\r'
  }

  function SkipBlanks(s: string): (r: string)
    ensures |r| <= |s|
  {
    if s != "" && IsBlank(s[0]) then SkipBlanks(s[1..]) else s
  }

  // ----- strings -----

  function HexValue(c: char): Option<nat> {
    if '0' <= c <= '9' then Some(c as int - '0' as int)
    else if 'a' <= c <= 'f' then Some(c as int - 'a' as int + 10)
    else if 'A' <= c <= 'F' then Some(c as int - 'A' as int + 10)
    else None
  }

  /** The character of four hexadecimal digits, unless it is half of a surrogate pair. */
  function HexChar(s: string): Option<char>
    requires |s| >= 4
  {
    var a, b, c, d := HexValue(s[0]), HexValue(s[1]), HexValue(s[2]), HexValue(s[3]);
    if a.None? || b.None? || c.None? || d.None? then None else
    var code := a.value * 4096 + b.value * 256 + c.value * 16 + d.value;
    if code < 0xD800 || 0xE000 <= code < 0x10000 then Some(code as char) else None
  }

  function Unescape(c: char): Option<char> {
    if c == '"' || c == '\\' || c == '/' then Some(c)
    else if c == 'n' then Some('\n')
    else if c == 'r' then Some('\r')
    else if c == 't' then Some('\t')
    else if c == 'b' then Some('\U{08}')
    else if c == 'f' then Some('\U{0C}')
    else None
  }

  /** One character of a string literal. */
  function ReadChar(s: string): (r: Parsed<char>)
    ensures r.Some? ==> |r.value.1| < |s|
  {
    if s == "" then None
    else if s[0] != '\\' then if s[0] < ' ' then None else Some((s[0], s[1..]))
    else if |s| < 2 then None
    else if s[1] == 'u' then
      if |s| < 6 then None
      else match HexChar(s[2..6]) case Some(c) => Some((c, s[6..])) case None => None
    else match Unescape(s[1]) case Some(c) => Some((c, s[2..])) case None => None
  }

  /** A string literal behind its opening quote. */
  function ReadString(s: string): (r: Parsed<string>)
    ensures r.Some? ==> |r.value.1| < |s|
    decreases |s|
  {
    if s == "" then None
    else if s[0] == '"' then Some(("", s[1..]))
    else match ReadChar(s)
      case None => None
      case Some((c, rest)) =>
        match ReadString(rest)
        case None => None
        case Some((text, after)) => Some(([c] + text, after))
  }

  lemma EscapeReads(c: char, rest: string)
    ensures Escape(c)[0] != '"' && ReadChar(Escape(c) + rest) == Some((c, rest))
  {
    var s := Escape(c) + rest;
    if Plain(c) {
      assert s[1..] == rest;
    } else if HasShortEscape(c) {
      assert s[0] == '\\' && s[1] == Escape(c)[1] && s[2..] == rest;
    } else {
      assert Escape(c) == ['\\', 'u', '0', '0', HexDigit(c as int / 16), HexDigit(c as int % 16)];
      assert s[2..6] == ['0', '0', HexDigit(c as int / 16), HexDigit(c as int % 16)] && s[6..] == rest;
      assert c as int < 32;
    }
  }

  lemma {:induction false} StringReads(text: string, rest: string)
    ensures ReadString(Escaped(text) + "\"" + rest) == Some((text, rest))
  {
    if text == "" {
      assert "" + "\"" + rest == "\"" + rest && ("\"" + rest)[1..] == rest;
    } else {
      var tail := Escaped(text[1..]) + "\"" + rest;
      EscapeReads(text[0], tail);
      StringReads(text[1..], rest);
      StringGoesOn(Escape(text[0]) + tail, text[0], tail, text[1..], rest);
      EscapedShape(text, rest);
      assert text == [text[0]] + text[1..];
    }
  }

  lemma StringGoesOn(s: string, c: char, tail: string, text: string, rest: string)
    requires s != "" && s[0] != '"' && ReadChar(s) == Some((c, tail)) && ReadString(tail) == Some((text, rest))
    ensures ReadString(s) == Some(([c] + text, rest))
  {
  }

  lemma EscapedShape(text: string, rest: string)
    requires text != ""
    ensures Escaped(text) + "\"" + rest == Escape(text[0]) + (Escaped(text[1..]) + "\"" + rest)
  {
    GlueFour(Escape(text[0]), Escaped(text[1..]), "\"", rest);
  }

  lemma GlueFour(a: string, b: string, c: string, d: string)
    ensures a + b + c + d == a + (b + c + d)
  {
  }

  // ----- numbers -----

  predicate IsDigit(c: char) {
    '0' <= c <= '9'
  }

  function ReadDigits(s: string, value: nat): (r: (nat, string))
    ensures |r.1| <= |s|
    decreases |s|
  {
    if s != "" && IsDigit(s[0]) then ReadDigits(s[1..], value * 10 + (s[0] as int - '0' as int)) else (value, s)
  }

  /** A natural number without leading zeros, and not the beginning of a fraction. */
  function ReadNatural(s: string): (r: Parsed<nat>)
    ensures r.Some? ==> |r.value.1| < |s|
  {
    if s == "" || !IsDigit(s[0]) then None
    else
      var digits := ReadDigits(s[1..], s[0] as int - '0' as int);
      var (value, rest) := if s[0] == '0' then (0, s[1..]) else digits;
      if rest != "" && (rest[0] == '.' || rest[0] == 'e' || rest[0] == 'E') then None else Some((value, rest))
  }

  lemma {:induction false} FirstDigit(n: nat)
    ensures Digits(n) != "" && IsDigit(Digits(n)[0]) && (n > 0 ==> Digits(n)[0] != '0') && (n == 0 ==> Digits(n) == "0")
  {
    if n >= 10 {
      FirstDigit(n / 10);
    }
  }

  lemma {:induction false} DigitsRead(n: nat, rest: string)
    ensures ReadDigits(Digits(n) + rest, 0) == ReadDigits(rest, n)
  {
    if n < 10 {
      LastDigitReads(HexDigit(n), rest, 0);
    } else {
      var last := [HexDigit(n % 10)] + rest;
      DigitsRead(n / 10, last);
      LastDigitReads(HexDigit(n % 10), rest, n / 10);
      assert Digits(n) + rest == Digits(n / 10) + last;
    }
  }

  lemma LastDigitReads(c: char, rest: string, value: nat)
    requires IsDigit(c)
    ensures ReadDigits([c] + rest, value) == ReadDigits(rest, value * 10 + (c as int - '0' as int))
  {
    assert ([c] + rest)[0] == c && ([c] + rest)[1..] == rest;
  }

  /** What may follow a value: the end, or a separator. */
  predicate Ends(rest: string) {
    rest == "" || rest[0] == ',' || rest[0] == ']' || rest[0] == '}'
  }

  lemma NaturalReads(n: nat, rest: string)
    requires Ends(rest)
    ensures ReadNatural(Digits(n) + rest) == Some((n, rest))
  {
    var s := Digits(n) + rest;
    DigitsRead(n, rest);
    FirstDigit(n);
    assert s[0] == Digits(n)[0];
    if n == 0 {
      assert s[1..] == rest;
    } else {
      assert ReadDigits(s, 0) == ReadDigits(s[1..], s[0] as int - '0' as int);
      assert ReadDigits(rest, n) == (n, rest);
    }
  }

  // ----- values -----

  predicate StartsWith(s: string, word: string) {
    |word| <= |s| && s[..|word|] == word
  }

  /** json.loads: one value, with blanks around it. */
  function Loads(s: string): Option<Json> {
    match ReadValue(SkipBlanks(s))
    case None => None
    case Some((v, rest)) => if SkipBlanks(rest) == "" then Some(v) else None
  }

  function ReadValue(s: string): (r: Parsed<Json>)
    ensures r.Some? ==> |r.value.1| < |s|
    decreases |s|, 0
  {
    if s == "" then None
    else if s[0] == '"' then
      match ReadString(s[1..]) case Some((text, rest)) => Some((Text(text), rest)) case None => None
    else if s[0] == '[' then
      var t := SkipBlanks(s[1..]);
      if t != "" && t[0] == ']' then Some((Array([]), t[1..]))
      else match ReadItems(t) case Some((items, rest)) => Some((Array(items), rest)) case None => None
    else if s[0] == '{' then
      var t := SkipBlanks(s[1..]);
      if t != "" && t[0] == '}' then Some((Object([]), t[1..]))
      else match ReadFields(t, []) case Some((fields, rest)) => Some((Object(fields), rest)) case None => None
    else if s[0] == '-' then
      match ReadNatural(s[1..]) case Some((n, rest)) => Some((Number(0 - n), rest)) case None => None
    else if IsDigit(s[0]) then
      match ReadNatural(s) case Some((n, rest)) => Some((Number(n), rest)) case None => None
    else if StartsWith(s, "null") then Some((Null, s[4..]))
    else if StartsWith(s, "true") then Some((Bool(true), s[4..]))
    else if StartsWith(s, "false") then Some((Bool(false), s[5..]))
    else None
  }

  /** The items of an array, up to its closing bracket. */
  function ReadItems(s: string): (r: Parsed<seq<Json>>)
    ensures r.Some? ==> |r.value.1| < |s|
    decreases |s|, 1
  {
    match ReadValue(s)
    case None => None
    case Some((v, rest)) =>
      var t := SkipBlanks(rest);
      if t == "" then None
      else if t[0] == ']' then Some(([v], t[1..]))
      else if t[0] != ',' then None
      else
        match ReadItems(SkipBlanks(t[1..]))
        case None => None
        case Some((items, after)) => Some(([v] + items, after))
  }

  /** The fields of an object, up to its closing brace; a repeated key keeps its place and takes the later value. */
  function ReadFields(s: string, before: seq<Field>): (r: Parsed<seq<Field>>)
    ensures r.Some? ==> |r.value.1| < |s|
    decreases |s|, 1
  {
    if s == "" || s[0] != '"' then None
    else match ReadString(s[1..])
      case None => None
      case Some((key, afterKey)) =>
        var colon := SkipBlanks(afterKey);
        if colon == "" || colon[0] != ':' then None
        else match ReadValue(SkipBlanks(colon[1..]))
          case None => None
          case Some((v, rest)) =>
            var fields, t := Put(before, key, v), SkipBlanks(rest);
            if t == "" then None
            else if t[0] == '}' then Some((fields, t[1..]))
            else if t[0] != ',' then None
            else ReadFields(SkipBlanks(t[1..]), fields)
  }

  // ----- the round trip -----

  /** Every object of the value has distinct keys, as a dictionary has. */
  ghost predicate IsDictionary(v: Json) {
    match v
    case Array(items) => AreDictionaries(items)
    case Object(fields) => HaveDistinctKeys(fields) && FieldsAreDictionaries(fields)
    case _ => true
  }

  ghost predicate AreDictionaries(items: seq<Json>) {
    items == [] || (IsDictionary(items[0]) && AreDictionaries(items[1..]))
  }

  ghost predicate FieldsAreDictionaries(fields: seq<Field>) {
    fields == [] || (IsDictionary(fields[0].value) && FieldsAreDictionaries(fields[1..]))
  }

  predicate HaveDistinctKeys(fields: seq<Field>) {
    forall i, j :: 0 <= i < j < |fields| ==> fields[i].key != fields[j].key
  }

  lemma NumberReads(n: int, rest: string)
    requires Ends(rest)
    ensures ReadValue(Numeral(n) + rest) == Some((Number(n), rest))
  {
    if n < 0 {
      NaturalReads(-n, rest);
      Glue("-", Digits(-n), rest);
      NegativeReads(Digits(-n) + rest, -n, rest);
    } else {
      NaturalReads(n, rest);
      FirstDigit(n);
      PositiveReads(Digits(n) + rest, n, rest);
    }
  }

  lemma NegativeReads(s: string, n: nat, rest: string)
    requires ReadNatural(s) == Some((n, rest))
    ensures ReadValue("-" + s) == Some((Number(0 - n), rest))
  {
    assert ("-" + s)[0] == '-' && ("-" + s)[1..] == s;
  }

  lemma PositiveReads(s: string, n: nat, rest: string)
    requires ReadNatural(s) == Some((n, rest))
    ensures ReadValue(s) == Some((Number(n), rest))
  {
    assert IsDigit(s[0]);
  }

  lemma Glue(a: string, b: string, c: string)
    ensures a + b + c == a + (b + c)
  {
  }

  lemma WordReads(v: Json, rest: string)
    requires v.Null? || v.Bool?
    ensures ReadValue(Dumps(v) + rest) == Some((v, rest))
  {
    var word := Dumps(v);
    var s := word + rest;
    assert s[..|word|] == word && s[|word|..] == rest && s[0] == word[0];
    if v == Bool(true) {
      assert s[..4] == "true";
    } else if v == Bool(false) {
      assert s[..5] == "false" && s[0] == 'f';
    }
  }

  lemma TextReads(text: string, rest: string)
    ensures ReadValue(Quoted(text) + rest) == Some((Text(text), rest))
  {
    var tail := Escaped(text) + "\"" + rest;
    StringReads(text, rest);
    Behind('"', tail);
    QuotedShape(Escaped(text), rest);
    assert ReadValue("\"" + tail) == Some((Text(text), rest));
  }

  lemma QuotedShape(body: string, rest: string)
    ensures "\"" + body + "\"" + rest == "\"" + (body + "\"" + rest)
  {
  }

  /** Serializing and reading back gives the same value, whatever follows it. */
  lemma {:induction false} ValueReads(v: Json, rest: string)
    requires IsDictionary(v) && Ends(rest)
    ensures ReadValue(Dumps(v) + rest) == Some((v, rest))
    decreases v, 0
  {
    match v
    case Number(n) => NumberReads(n, rest);
    case Text(text) => TextReads(text, rest);
    case Array(items) => ArrayReads(items, rest);
    case Object(fields) => ObjectReads(fields, rest);
    case _ => WordReads(v, rest);
  }

  lemma {:induction false} ArrayReads(items: seq<Json>, rest: string)
    requires AreDictionaries(items)
    ensures ReadValue(Dumps(Array(items)) + rest) == Some((Array(items), rest))
    decreases items, 1
  {
    var t := DumpsItems(items) + ("]" + rest);
    ArrayShape(DumpsItems(items), rest);
    if items == [] {
      EmptyArrayReads(t, rest);
    } else {
      ItemsRead(items, rest);
      FirstOfItems(items, "]" + rest);
      OpenArrayReads(t, items, rest);
    }
  }

  lemma ArrayShape(body: string, rest: string)
    ensures "[" + body + "]" + rest == "[" + (body + ("]" + rest))
  {
  }

  lemma EmptyArrayReads(t: string, rest: string)
    requires t == "" + ("]" + rest)
    ensures ReadValue("[" + t) == Some((Array([]), rest))
  {
    assert ("[" + t)[0] == '[' && ("[" + t)[1..] == t && t[0] == ']' && t[1..] == rest;
  }

  lemma OpenArrayReads(t: string, items: seq<Json>, rest: string)
    requires t != "" && t[0] != ']' && SkipBlanks(t) == t && ReadItems(t) == Some((items, rest))
    ensures ReadValue("[" + t) == Some((Array(items), rest))
  {
    assert ("[" + t)[0] == '[' && ("[" + t)[1..] == t;
  }

  lemma {:induction false} ItemsRead(items: seq<Json>, rest: string)
    requires items != [] && AreDictionaries(items)
    ensures ReadItems(DumpsItems(items) + ("]" + rest)) == Some((items, rest))
    decreases items, 0
  {
    if |items| == 1 {
      ValueReads(items[0], "]" + rest);
      LastItemReads(Dumps(items[0]) + ("]" + rest), items[0], rest);
      assert items == [items[0]];
    } else {
      var tail := DumpsItems(items[1..]) + ("]" + rest);
      ValueReads(items[0], "," + tail);
      FirstOfItems(items[1..], "]" + rest);
      ItemsRead(items[1..], rest);
      MoreItemsRead(Dumps(items[0]) + ("," + tail), items[0], tail, items[1..], rest);
      ItemsShape(Dumps(items[0]), DumpsItems(items[1..]), "]" + rest);
      assert items == [items[0]] + items[1..];
    }
  }

  lemma ItemsShape(head: string, body: string, rest: string)
    ensures head + "," + body + rest == head + ("," + (body + rest))
  {
  }

  lemma LastItemReads(s: string, v: Json, rest: string)
    requires ReadValue(s) == Some((v, "]" + rest))
    ensures ReadItems(s) == Some(([v], rest))
  {
    assert ("]" + rest)[0] == ']' && ("]" + rest)[1..] == rest;
  }

  lemma MoreItemsRead(s: string, v: Json, tail: string, items: seq<Json>, rest: string)
    requires ReadValue(s) == Some((v, "," + tail)) && SkipBlanks(tail) == tail && ReadItems(tail) == Some((items, rest))
    ensures ReadItems(s) == Some(([v] + items, rest))
  {
    assert ("," + tail)[0] == ',' && ("," + tail)[1..] == tail;
  }

  /** A serialized value begins with neither a blank nor a closing bracket. */
  lemma FirstOfValue(v: Json)
    ensures Dumps(v) != "" && !IsBlank(Dumps(v)[0]) && Dumps(v)[0] != ']' && Dumps(v)[0] != '}'
  {
    if v.Number? {
      FirstDigit(if v.n < 0 then -v.n else v.n);
    }
  }

  lemma FirstOfItems(items: seq<Json>, rest: string)
    requires items != []
    ensures var s := DumpsItems(items) + rest; s != "" && !IsBlank(s[0]) && s[0] != ']' && SkipBlanks(s) == s
  {
    FirstOfValue(items[0]);
  }

  lemma {:induction false} ObjectReads(fields: seq<Field>, rest: string)
    requires HaveDistinctKeys(fields) && FieldsAreDictionaries(fields)
    ensures ReadValue(Dumps(Object(fields)) + rest) == Some((Object(fields), rest))
    decreases fields, 1
  {
    var t := DumpsFields(fields) + ("}" + rest);
    ObjectShape(DumpsFields(fields), rest);
    if fields == [] {
      EmptyObjectReads(t, rest);
    } else {
      assert [] + fields == fields;
      DistinctAreNew([], fields);
      FieldsRead([], fields, rest, t, fields);
      FirstOfFields(fields, "}" + rest);
      OpenObjectReads(t, fields, rest);
    }
  }

  lemma ObjectShape(body: string, rest: string)
    ensures "{" + body + "}" + rest == "{" + (body + ("}" + rest))
  {
  }

  lemma EmptyObjectReads(t: string, rest: string)
    requires t == "" + ("}" + rest)
    ensures ReadValue("{" + t) == Some((Object([]), rest))
  {
    assert ("{" + t)[0] == '{' && ("{" + t)[1..] == t && t[0] == '}' && t[1..] == rest;
  }

  lemma OpenObjectReads(t: string, fields: seq<Field>, rest: string)
    requires t != "" && t[0] == '"' && ReadFields(t, []) == Some((fields, rest))
    ensures ReadValue("{" + t) == Some((Object(fields), rest))
  {
    assert ("{" + t)[0] == '{' && ("{" + t)[1..] == t;
  }

  lemma FirstOfFields(fields: seq<Field>, rest: string)
    requires fields != []
    ensures var s := DumpsFields(fields) + rest; s != "" && s[0] == '"' && SkipBlanks(s) == s
  {
  }

  /** A new key is written at the end. */
  lemma {:induction false} PutNew(fields: seq<Field>, f: Field)
    requires forall i :: 0 <= i < |fields| ==> fields[i].key != f.key
    ensures Put(fields, f.key, f.value) == fields + [f]
  {
    if fields != [] {
      PutNew(fields[1..], f);
      assert fields + [f] == [fields[0]] + (fields[1..] + [f]);
    }
  }

  /** Each key of `fields` is new when its turn comes. */
  ghost predicate AllNew(before: seq<Field>, fields: seq<Field>)
    decreases |fields|
  {
    fields == []
    || ((forall i :: 0 <= i < |before| ==> before[i].key != fields[0].key) && AllNew(before + [fields[0]], fields[1..]))
  }

  lemma {:induction false} DistinctAreNew(before: seq<Field>, fields: seq<Field>)
    requires HaveDistinctKeys(before + fields)
    ensures AllNew(before, fields)
    decreases |fields|
  {
    if fields != [] {
      KeyIsNew(before, fields);
      assert before + fields == (before + [fields[0]]) + fields[1..];
      DistinctAreNew(before + [fields[0]], fields[1..]);
    }
  }

  lemma NextIsNew(before: seq<Field>, fields: seq<Field>)
    requires fields != [] && AllNew(before, fields)
    ensures Put(before, fields[0].key, fields[0].value) == before + [fields[0]]
    ensures AllNew(before + [fields[0]], fields[1..]) && (before + [fields[0]]) + fields[1..] == before + fields
  {
    PutNew(before, fields[0]);
  }

  lemma {:induction false} FieldsRead(before: seq<Field>, fields: seq<Field>, rest: string, s: string, all: seq<Field>)
    requires fields != [] && AllNew(before, fields) && FieldsAreDictionaries(fields)
    requires s == DumpsFields(fields) + ("}" + rest) && all == before + fields
    ensures ReadFields(s, before) == Some((all, rest))
    decreases fields, 0
  {
    var f := fields[0];
    NextIsNew(before, fields);
    FieldsShape(fields, rest);
    if |fields| == 1 {
      assert fields == [f];
      ValueReads(f.value, "}" + rest);
      LastFieldReads(before, f, rest, s);
    } else {
      var more := DumpsFields(fields[1..]) + ("}" + rest);
      ValueReads(f.value, "," + more);
      FieldsRead(before + [f], fields[1..], rest, more, all);
      FirstOfFields(fields[1..], "}" + rest);
      MoreFieldsRead(before, f, more, all, rest, s);
    }
  }

  lemma FieldsShape(fields: seq<Field>, rest: string)
    requires fields != []
    ensures var f, more := fields[0], DumpsFields(fields[1..]) + ("}" + rest);
            DumpsFields(fields) + ("}" + rest) == FieldText(f, if |fields| == 1 then "}" + rest else "," + more)
  {
    var f := fields[0];
    if |fields| == 1 {
      FieldShape(f, "}" + rest);
    } else {
      var more := DumpsFields(fields[1..]) + ("}" + rest);
      FieldShape(f, "," + more);
      ItemsShape(Quoted(f.key) + ":" + Dumps(f.value), DumpsFields(fields[1..]), "}" + rest);
    }
  }

  lemma KeyIsNew(before: seq<Field>, fields: seq<Field>)
    requires fields != [] && HaveDistinctKeys(before + fields)
    ensures forall i :: 0 <= i < |before| ==> before[i].key != fields[0].key
  {
    forall i | 0 <= i < |before| ensures before[i].key != fields[0].key {
      assert (before + fields)[i] == before[i] && (before + fields)[|before|] == fields[0];
    }
  }

  /** The text of one field before `tail`. */
  function FieldText(f: Field, tail: string): string {
    "\"" + (Escaped(f.key) + "\"" + (":" + (Dumps(f.value) + tail)))
  }

  lemma FieldShape(f: Field, tail: string)
    ensures Quoted(f.key) + ":" + Dumps(f.value) + tail == FieldText(f, tail)
  {
  }

  /** The key and the value of a field are read, and its tail is left. */
  lemma FieldHeadReads(f: Field, tail: string)
    ensures var s := FieldText(f, tail);
            && s != "" && s[0] == '"'
            && ReadString(s[1..]) == Some((f.key, ":" + (Dumps(f.value) + tail)))
            && SkipBlanks(Dumps(f.value) + tail) == Dumps(f.value) + tail
  {
    var after := ":" + (Dumps(f.value) + tail);
    assert FieldText(f, tail)[1..] == Escaped(f.key) + "\"" + after;
    StringReads(f.key, after);
    FirstOfValue(f.value);
  }

  lemma LastFieldReads(before: seq<Field>, f: Field, rest: string, s: string)
    requires s == FieldText(f, "}" + rest)
    requires ReadValue(Dumps(f.value) + ("}" + rest)) == Some((f.value, "}" + rest))
    requires Put(before, f.key, f.value) == before + [f]
    ensures ReadFields(s, before) == Some((before + [f], rest))
  {
    var v := Dumps(f.value) + ("}" + rest);
    FieldHeadReads(f, "}" + rest);
    Behind(':', v);
    Behind('}', rest);
  }

  lemma Behind(c: char, tail: string)
    ensures ([c] + tail)[0] == c && ([c] + tail)[1..] == tail
  {
  }

  lemma MoreFieldsRead(before: seq<Field>, f: Field, more: string, fields: seq<Field>, rest: string, s: string)
    requires s == FieldText(f, "," + more)
    requires ReadValue(Dumps(f.value) + ("," + more)) == Some((f.value, "," + more))
    requires Put(before, f.key, f.value) == before + [f]
    requires SkipBlanks(more) == more && ReadFields(more, before + [f]) == Some((fields, rest))
    ensures ReadFields(s, before) == Some((fields, rest))
  {
    var v := Dumps(f.value) + ("," + more);
    FieldHeadReads(f, "," + more);
    Behind(':', v);
    Behind(',', more);
  }

  /** json.loads(json.dumps(v)) == v for every value whose objects are dictionaries. */
  lemma LoadsDumps(v: Json)
    requires IsDictionary(v)
    ensures Loads(Dumps(v)) == Some(v)
  {
    ValueReads(v, "");
    FirstOfValue(v);
    assert Dumps(v) + "" == Dumps(v);
  }
}
