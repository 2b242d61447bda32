/**
 * The text that `json.dumps(value, sort_keys=True)` produces for null,
 * booleans, integers, strings, arrays and string-keyed objects, and a parser
 * that undoes it. Strings are escaped as in section 7 of RFC 8259, with every
 * character outside printable ASCII written as one or two `\u` escapes.
 */
module Json {
  import opened Wrappers

  /** A value as Python holds it; an object keeps its insertion order. */
  datatype Json =
    | Null
    | Bool(b: bool)
    | Int(n: int)
    | Str(s: string)
    | Arr(items: seq<Json>)
    | Obj(fields: seq<Field>)

  datatype Field = Field(key: string, value: Json)

  // Integers

  predicate IsDigit(c: char) { '0' <= c <= '9' }

  function Digit(d: nat): char
    requires d < 10
  {
    ('0' as int + d) as char
  }

  function PrintNat(n: nat): (r: string)
    ensures r != "" && forall c :: c in r ==> IsDigit(c)
  {
    if n < 10 then [Digit(n)] else PrintNat(n / 10) + [Digit(n % 10)]
  }

  function PrintInt(n: int): string {
    if n < 0 then "-" + PrintNat(-n) else PrintNat(n)
  }

  /** The number of digits that `s` starts with. */
  function DigitCount(s: string): (k: nat)
    ensures k <= |s| && forall i :: 0 <= i < k ==> IsDigit(s[i])
  {
    if s == "" || !IsDigit(s[0]) then 0 else 1 + DigitCount(s[1..])
  }

  function DigitValue(c: char): nat
    requires IsDigit(c)
  {
    c as int - '0' as int
  }

  function NatValue(s: string): nat
    requires forall c :: c in s ==> IsDigit(c)
  {
    if s == "" then 0 else
      var last := s[|s| - 1];
      assert last in s;
      NatValue(s[..|s| - 1]) * 10 + DigitValue(last)
  }

  function ParseNat(s: string): (r: Option<(nat, string)>)
    ensures r.Some? ==> |r.value.1| < |s|
  {
    var k := DigitCount(s);
    if k == 0 then None else Some((NatValue(s[..k]), s[k..]))
  }

  function ParseInt(s: string): (r: Option<(int, string)>)
    ensures r.Some? ==> |r.value.1| < |s|
  {
    if s != "" && s[0] == '-' then
      match ParseNat(s[1..])
      case None => None
      case Some((n, rest)) => Some((0 - n as int, rest))
    else
      match ParseNat(s)
      case None => None
      case Some((n, rest)) => Some((n as int, rest))
  }

  /** Nothing that would continue a number. */
  predicate EndsNumber(rest: string) {
    rest == "" || !IsDigit(rest[0])
  }

  lemma {:induction false} DigitCountOf(digits: string, rest: string)
    requires (forall c :: c in digits ==> IsDigit(c)) && EndsNumber(rest)
    ensures DigitCount(digits + rest) == |digits|
  {
    if digits == "" {
      assert digits + rest == rest;
    } else {
      assert (digits + rest)[1..] == digits[1..] + rest;
      DigitCountOf(digits[1..], rest);
    }
  }

  lemma {:induction false} NatValueOf(n: nat)
    ensures NatValue(PrintNat(n)) == n
  {
    if n >= 10 {
      NatValueOf(n / 10);
      assert PrintNat(n)[..|PrintNat(n)| - 1] == PrintNat(n / 10);
    }
  }

  lemma ParsePrintNat(n: nat, rest: string)
    requires EndsNumber(rest)
    ensures ParseNat(PrintNat(n) + rest) == Some((n, rest))
  {
    DigitCountOf(PrintNat(n), rest);
    NatValueOf(n);
    assert (PrintNat(n) + rest)[..|PrintNat(n)|] == PrintNat(n);
  }

  lemma ParseNegative(digits: string, rest: string)
    ensures ParseInt("-" + digits + rest) ==
            match ParseNat(digits + rest)
            case None => None
            case Some((n, rest')) => Some((0 - n as int, rest'))
  {
    assert ("-" + digits + rest)[1..] == digits + rest;
  }

  lemma ParsePositive(digits: string, rest: string)
    requires digits != "" && forall c :: c in digits ==> IsDigit(c)
    ensures ParseInt(digits + rest) ==
            match ParseNat(digits + rest)
            case None => None
            case Some((n, rest')) => Some((n as int, rest'))
  {
    assert digits[0] in digits;
  }

  lemma ParsePrintInt(n: int, rest: string)
    requires EndsNumber(rest)
    ensures ParseInt(PrintInt(n) + rest) == Some((n, rest))
  {
    if n < 0 {
      ParsePrintNat(-n, rest);
      ParseNegative(PrintNat(-n), rest);
    } else {
      ParsePrintNat(n, rest);
      ParsePositive(PrintNat(n), rest);
    }
  }

  // Strings

  function HexDigit(d: nat): char
    requires d < 16
  {
    if d < 10 then ('0' as int + d) as char else ('a' as int + (d - 10)) as char
  }

  function HexValue(c: char): Option<nat> {
    if '0' <= c <= '9' then Some(c as int - '0' as int)
    else if 'a' <= c <= 'f' then Some(c as int - 'a' as int + 10)
    else None
  }

  function Hex4(n: nat): string
    requires n < 0x10000
  {
    [HexDigit(n / 0x1000), HexDigit(n / 0x100 % 0x10), HexDigit(n / 0x10 % 0x10), HexDigit(n % 0x10)]
  }

  function ParseHex4(s: string): (r: Option<nat>)
    ensures r.Some? ==> |s| >= 4 && r.value < 0x10000
  {
    if |s| < 4 then None else
      match (HexValue(s[0]), HexValue(s[1]), HexValue(s[2]), HexValue(s[3]))
      case (Some(a), Some(b), Some(c), Some(d)) =>
        if a < 16 && b < 16 && c < 16 && d < 16 then Some(a * 0x1000 + b * 0x100 + c * 0x10 + d) else None
      case _ => None
  }

  predicate Printable(c: char) { ' ' <= c <= '~' }

  function UnicodeEscape(n: nat): string
    requires n < 0x10000
  {
    "\\u" + Hex4(n)
  }

  function Escape(c: char): string {
    if c == '"' then "\\\""
    else if c == '\\' then "\\\\"
    else if c == '\n' then "\\n"
    else if c == '\r' then "\\r"
    else if c == '\t' then "\\t"
    else if c as int == 8 then "\\b"
    else if c as int == 12 then "\\f"
    else if Printable(c) then [c]
    else if c as int < 0x10000 then UnicodeEscape(c as int)
    else UnicodeEscape(0xD800 + (c as int - 0x10000) / 0x400) + UnicodeEscape(0xDC00 + (c as int - 0x10000) % 0x400)
  }

  function EscapeAll(s: string): string {
    if s == "" then "" else Escape(s[0]) + EscapeAll(s[1..])
  }

  /** A `\u` escape, joined with a second one when it is a high surrogate. */
  function ParseUnicode(s: string): (r: Option<(char, string)>)
    requires |s| >= 2
    ensures r.Some? ==> |r.value.1| < |s|
  {
    match ParseHex4(s[2..])
    case None => None
    case Some(h) =>
      if h < 0xD800 || h >= 0xE000 then Some((h as char, s[6..]))
      else if h < 0xDC00 && |s| >= 8 && s[6] == '\\' && s[7] == 'u' then
        match ParseHex4(s[8..])
        case Some(l) =>
          if 0xDC00 <= l < 0xE000 then Some(((0x10000 + (h - 0xD800) * 0x400 + (l - 0xDC00)) as char, s[12..]))
              else None
        case None => None
      else None
  }

  /** One character of a string, plain or escaped. */
  function ParseChar(s: string): (r: Option<(char, string)>)
    requires s != ""
    ensures r.Some? ==> |r.value.1| < |s|
  {
    if s[0] != '\\' then Some((s[0], s[1..]))
    else if |s| < 2 then None
    else match s[1]
      case '"' => Some(('"', s[2..]))
      case '\\' => Some(('\\', s[2..]))
      case 'n' => Some(('\n', s[2..]))
      case 'r' => Some(('\r', s[2..]))
      case 't' => Some(('\t', s[2..]))
      case 'b' => Some((8 as char, s[2..]))
      case 'f' => Some((12 as char, s[2..]))
      case 'u' => ParseUnicode(s)
      case _ => None
  }

  /** The rest of a string, after its opening quote. */
  function ParseString(s: string): (r: Option<(string, string)>)
    ensures r.Some? ==> |r.value.1| < |s|
    decreases |s|
  {
    if s == "" then None
    else if s[0] == '"' then Some(("", s[1..]))
    else match ParseChar(s)
      case None => None
      case Some((c, rest)) =>
        match ParseString(rest)
        case None => None
        case Some((cs, rest')) => Some(([c] + cs, rest'))
  }

  lemma ParseHexOf(n: nat, rest: string)
    requires n < 0x10000
    ensures ParseHex4(Hex4(n) + rest) == Some(n)
  {
    hide HexDigit;
    hide ParseHex4;
    HexPlaces(n);
    ParseHexDigits(n / 0x1000, n / 0x100 % 0x10, n / 0x10 % 0x10, n % 0x10, rest);
  }

  lemma HexPlaces(n: nat)
    requires n < 0x10000
    ensures n / 0x1000 < 0x10
    ensures n == n / 0x1000 * 0x1000 + n / 0x100 % 0x10 * 0x100 + n / 0x10 % 0x10 * 0x10 + n % 0x10
  {
    var m := n / 0x10;
    var k := m / 0x10;
    assert n / 0x100 == k;
    assert n / 0x1000 == k / 0x10;
  }

  lemma ParseHexDigits(a: nat, b: nat, c: nat, d: nat, rest: string)
    requires a < 16 && b < 16 && c < 16 && d < 16
    ensures ParseHex4([HexDigit(a), HexDigit(b), HexDigit(c), HexDigit(d)] + rest)
        == Some(a * 0x1000 + b * 0x100 + c * 0x10 + d)
  {
    hide HexDigit;
    hide HexValue;
    HexDigitValue(a);
    HexDigitValue(b);
    HexDigitValue(c);
    HexDigitValue(d);
  }

  lemma HexDigitValue(d: nat)
    requires d < 16
    ensures HexValue(HexDigit(d)) == Some(d)
  {
  }

  lemma ParseBmpEscape(c: char, rest: string)
    requires c as int < 0x10000
    ensures ParseUnicode(UnicodeEscape(c as int) + rest) == Some((c, rest))
  {
    var s := UnicodeEscape(c as int) + rest;
    assert s[2..] == Hex4(c as int) + rest;
    ParseHexOf(c as int, rest);
    assert s[6..] == rest;
  }

  lemma ParsePairEscape(c: char, rest: string)
    requires c as int >= 0x10000
    ensures ParseUnicode(UnicodeEscape(0xD800 + (c as int - 0x10000) / 0x400)
                         + UnicodeEscape(0xDC00 + (c as int - 0x10000) % 0x400) + rest) == Some((c, rest))
  {
    var h, l := 0xD800 + (c as int - 0x10000) / 0x400, 0xDC00 + (c as int - 0x10000) % 0x400;
    var s := UnicodeEscape(h) + UnicodeEscape(l) + rest;
    assert s[2..] == Hex4(h) + (UnicodeEscape(l) + rest);
    ParseHexOf(h, UnicodeEscape(l) + rest);
    assert s[8..] == Hex4(l) + rest;
    ParseHexOf(l, rest);
    assert s[12..] == rest;
    assert 0x10000 + (h - 0xD800) * 0x400 + (l - 0xDC00) == c as int;
  }

  lemma ParseEscape(c: char, rest: string)
    ensures Escape(c) != "" && Escape(c)[0] != '"'
    ensures ParseChar(Escape(c) + rest) == Some((c, rest))
  {
    var s := Escape(c) + rest;
    if c == '"' || c == '\\' || c == '\n' || c == '\r' || c == '\t' || c as int == 8 || c as int == 12 {
      assert s[2..] == rest;
    } else if Printable(c) {
      assert s[1..] == rest;
    } else if c as int < 0x10000 {
      ParseBmpEscape(c, rest);
    } else {
      ParsePairEscape(c, rest);
    }
  }

  lemma {:induction false} ParseEscaped(s: string, rest: string)
    ensures ParseString(EscapeAll(s) + "\"" + rest) == Some((s, rest))
  {
    var text := EscapeAll(s) + "\"" + rest;
    if s == "" {
      assert text[1..] == rest;
    } else {
      var tail := EscapeAll(s[1..]) + "\"" + rest;
      assert text == Escape(s[0]) + tail;
      ParseEscape(s[0], tail);
      ParseEscaped(s[1..], rest);
      assert s == [s[0]] + s[1..];
    }
  }

  // Values

  function Print(v: Json): string
    decreases v, 1
  {
    match v
    case Null => "null"
    case Bool(b) => if b then "true" else "false"
    case Int(n) => PrintInt(n)
    case Str(s) => "\"" + EscapeAll(s) + "\""
    case Arr(items) => "[" + PrintItems(items) + "]"
    case Obj(fields) => "{" + PrintFields(fields) + "}"
  }

  function PrintItems(items: seq<Json>): string
    decreases items, 0
  {
    if items == [] then ""
    else Print(items[0]) + if |items| == 1 then "" else ", " + PrintItems(items[1..])
  }

  function PrintFields(fields: seq<Field>): string
    decreases fields, 0
  {
    if fields == [] then ""
    else PrintField(fields[0]) + if |fields| == 1 then "" else ", " + PrintFields(fields[1..])
  }

  function PrintField(field: Field): string
    decreases field, 0
  {
    "\"" + EscapeAll(field.key) + "\": " + Print(field.value)
  }

  /** Reads the given word and what follows it. */
  function ParseWord(s: string, word: string, v: Json): (r: Option<(Json, string)>)
    requires word != ""
    ensures r.Some? ==> |r.value.1| < |s|
  {
    if |s| >= |word| && s[..|word|] == word then Some((v, s[|word|..])) else None
  }

  function ParseAtom(s: string): (r: Option<(Json, string)>)
    requires s != ""
    ensures r.Some? ==> |r.value.1| < |s|
  {
    if s[0] == 'n' then ParseWord(s, "null", Null)
    else if s[0] == 't' then ParseWord(s, "true", Bool(true))
    else if s[0] == 'f' then ParseWord(s, "false", Bool(false))
    else if s[0] == '"' then
      match ParseString(s[1..])
      case None => None
      case Some((cs, rest)) => Some((Str(cs), rest))
    else
      match ParseInt(s)
      case None => None
      case Some((n, rest)) => Some((Int(n), rest))
  }

  function ParseValue(s: string): (r: Option<(Json, string)>)
    ensures r.Some? ==> |r.value.1| < |s|
    decreases |s|, 1
  {
    if s == "" then None
    else if s[0] == '[' then ParseArray(s[1..])
    else if s[0] == '{' then ParseObject(s[1..])
    else ParseAtom(s)
  }

  /** The rest of an array, after its opening bracket. */
  function ParseArray(s: string): (r: Option<(Json, string)>)
    ensures r.Some? ==> |r.value.1| <= |s|
    decreases |s|, 3
  {
    if s == "" then None
    else if s[0] == ']' then Some((Arr([]), s[1..]))
    else match ParseItems(s)
      case None => None
      case Some((items, rest)) => Some((Arr(items), rest))
  }

  function ParseObject(s: string): (r: Option<(Json, string)>)
    ensures r.Some? ==> |r.value.1| <= |s|
    decreases |s|, 4
  {
    if s == "" then None
    else if s[0] == '}' then Some((Obj([]), s[1..]))
    else match ParseFields(s)
      case None => None
      case Some((fields, rest)) => Some((Obj(fields), rest))
  }

  /** What separates two items. */
  predicate Separated(s: string) {
    |s| >= 2 && s[0] == ',' && s[1] == ' '
  }

  /** One or more items, up to and including the closing bracket. */
  function ParseItems(s: string): (r: Option<(seq<Json>, string)>)
    ensures r.Some? ==> |r.value.1| < |s|
    decreases |s|, 2
  {
    match ParseValue(s)
    case None => None
    case Some((v, rest)) => ParseMoreItems(v, rest)
  }

  function ParseMoreItems(v: Json, s: string): (r: Option<(seq<Json>, string)>)
    ensures r.Some? ==> |r.value.1| < |s|
    decreases |s|, 3
  {
    if s != "" && s[0] == ']' then Some(([v], s[1..]))
    else if Separated(s) then
      match ParseItems(s[2..])
      case None => None
      case Some((vs, rest)) => Some(([v] + vs, rest))
    else None
  }

  function ParseField(s: string): (r: Option<(Field, string)>)
    ensures r.Some? ==> |r.value.1| < |s|
    decreases |s|, 2
  {
    if s == "" || s[0] != '"' then None else
      match ParseString(s[1..])
      case None => None
      case Some((key, rest)) => ParseFieldValue(key, rest)
  }

  function ParseFieldValue(key: string, s: string): (r: Option<(Field, string)>)
    ensures r.Some? ==> |r.value.1| < |s|
    decreases |s|, 2
  {
    if |s| < 2 || s[0] != ':' || s[1] != ' ' then None else
      match ParseValue(s[2..])
      case None => None
      case Some((v, rest)) => Some((Field(key, v), rest))
  }

  function ParseFields(s: string): (r: Option<(seq<Field>, string)>)
    ensures r.Some? ==> |r.value.1| < |s|
    decreases |s|, 3
  {
    match ParseField(s)
    case None => None
    case Some((f, rest)) => ParseMoreFields(f, rest)
  }

  function ParseMoreFields(f: Field, s: string): (r: Option<(seq<Field>, string)>)
    ensures r.Some? ==> |r.value.1| < |s|
    decreases |s|, 4
  {
    if s != "" && s[0] == '}' then Some(([f], s[1..]))
    else if Separated(s) then
      match ParseFields(s[2..])
      case None => None
      case Some((fs, rest)) => Some(([f] + fs, rest))
    else None
  }

  // How the parser reads each form

  lemma ParsesWord(word: string, v: Json, rest: string)
    requires word != ""
    ensures ParseWord(word + rest, word, v) == Some((v, rest))
  {
    assert (word + rest)[..|word|] == word;
  }

  lemma ParsesNumber(s: string, n: int, rest: string)
    requires s != "" && (s[0] == '-' || IsDigit(s[0])) && ParseInt(s) == Some((n, rest))
    ensures ParseAtom(s) == Some((Int(n), rest))
  {
  }

  lemma ParsesString(body: string, cs: string, rest: string)
    requires ParseString(body) == Some((cs, rest))
    ensures ParseAtom("\"" + body) == Some((Str(cs), rest))
  {
    assert ("\"" + body)[1..] == body;
  }

  lemma ParsesAtom(s: string)
    requires s != "" && s[0] != '[' && s[0] != '{'
    ensures ParseValue(s) == ParseAtom(s)
  {
  }

  lemma ParsesArray(body: string)
    ensures ParseValue("[" + body) == ParseArray(body)
  {
    assert ("[" + body)[1..] == body;
  }

  lemma ParsesObject(body: string)
    ensures ParseValue("{" + body) == ParseObject(body)
  {
    assert ("{" + body)[1..] == body;
  }

  lemma ParsesFirstItem(s: string, v: Json, rest: string)
    requires ParseValue(s) == Some((v, rest))
    ensures ParseItems(s) == ParseMoreItems(v, rest)
  {
  }

  lemma ParsesFirstField(s: string, f: Field, rest: string)
    requires ParseField(s) == Some((f, rest))
    ensures ParseFields(s) == ParseMoreFields(f, rest)
  {
  }

  lemma ParsesLastItem(v: Json, rest: string)
    ensures ParseMoreItems(v, "]" + rest) == Some(([v], rest))
  {
    assert ("]" + rest)[1..] == rest;
  }

  lemma ParsesNextItem(v: Json, tail: string, vs: seq<Json>, rest: string)
    requires ParseItems(tail) == Some((vs, rest))
    ensures ParseMoreItems(v, ", " + tail) == Some(([v] + vs, rest))
  {
    assert (", " + tail)[2..] == tail;
  }

  lemma ParsesField(body: string, key: string, tail: string)
    requires ParseString(body) == Some((key, ": " + tail))
    ensures ParseField("\"" + body) == ParseFieldValue(key, ": " + tail)
  {
    assert ("\"" + body)[1..] == body;
  }

  lemma ParsesFieldValue(key: string, tail: string, v: Json, rest: string)
    requires ParseValue(tail) == Some((v, rest))
    ensures ParseFieldValue(key, ": " + tail) == Some((Field(key, v), rest))
  {
    assert (": " + tail)[2..] == tail;
  }

  lemma ParsesLastField(f: Field, rest: string)
    ensures ParseMoreFields(f, "}" + rest) == Some(([f], rest))
  {
    assert ("}" + rest)[1..] == rest;
  }

  lemma ParsesNextField(f: Field, tail: string, fs: seq<Field>, rest: string)
    requires ParseFields(tail) == Some((fs, rest))
    ensures ParseMoreFields(f, ", " + tail) == Some(([f] + fs, rest))
  {
    assert (", " + tail)[2..] == tail;
  }

  // Parsing what was printed gives the value back.

  /** A printed integer starts like no other value. */
  lemma IntIsNumber(n: int, rest: string)
    ensures var s := PrintInt(n) + rest;
            s != "" && (s[0] == '-' || IsDigit(s[0]))
  {
  }

  lemma PrintHead(v: Json)
    ensures Print(v) != "" && Print(v)[0] != ']'
  {
    if v.Int? {
      IntIsNumber(v.n, "");
      assert PrintInt(v.n) + "" == PrintInt(v.n);
    }
  }

  lemma RoundTripString(cs: string, rest: string)
    ensures ParseAtom("\"" + EscapeAll(cs) + "\"" + rest) == Some((Str(cs), rest))
  {
    var body := EscapeAll(cs) + "\"" + rest;
    ParseEscaped(cs, rest);
    ParsesString(body, cs, rest);
    assert "\"" + EscapeAll(cs) + "\"" + rest == "\"" + body;
  }

  lemma RoundTripAtom(v: Json, rest: string)
    requires EndsNumber(rest) && !v.Arr? && !v.Obj?
    ensures Print(v) + rest != "" && (Print(v) + rest)[0] != '[' && (Print(v) + rest)[0] != '{'
    ensures ParseAtom(Print(v) + rest) == Some((v, rest))
  {
    match v
    case Null =>
      ParsesWord("null", v, rest);
    case Bool(b) =>
      ParsesWord("true", v, rest);
      ParsesWord("false", v, rest);
    case Int(n) =>
      IntIsNumber(n, rest);
      ParsePrintInt(n, rest);
      ParsesNumber(PrintInt(n) + rest, n, rest);
    case Str(cs) =>
      RoundTripString(cs, rest);
  }

  lemma {:induction false} RoundTrip(v: Json, rest: string)
    requires EndsNumber(rest)
    ensures ParseValue(Print(v) + rest) == Some((v, rest))
    decreases v, 1
  {
    if v.Arr? {
      var body := PrintItems(v.items) + "]" + rest;
      assert Print(v) + rest == "[" + body;
      ParsesArray(body);
      RoundTripArray(v.items, rest);
    } else if v.Obj? {
      var body := PrintFields(v.fields) + "}" + rest;
      assert Print(v) + rest == "{" + body;
      ParsesObject(body);
      RoundTripObject(v.fields, rest);
    } else {
      RoundTripAtom(v, rest);
      ParsesAtom(Print(v) + rest);
    }
  }

  lemma {:induction false} RoundTripArray(items: seq<Json>, rest: string)
    ensures ParseArray(PrintItems(items) + "]" + rest) == Some((Arr(items), rest))
    decreases items, 1
  {
    var body := PrintItems(items) + "]" + rest;
    if items == [] {
      assert body == "]" + rest;
      assert body[1..] == rest;
    } else {
      PrintHead(items[0]);
      assert body[0] == Print(items[0])[0];
      RoundTripItems(items, rest);
    }
  }

  lemma {:induction false} RoundTripObject(fields: seq<Field>, rest: string)
    ensures ParseObject(PrintFields(fields) + "}" + rest) == Some((Obj(fields), rest))
    decreases fields, 1
  {
    var body := PrintFields(fields) + "}" + rest;
    if fields == [] {
      assert body == "}" + rest;
      assert body[1..] == rest;
    } else {
      assert PrintField(fields[0])[0] == '"';
      assert body[0] == PrintField(fields[0])[0];
      RoundTripFields(fields, rest);
    }
  }

  lemma {:induction false} ItemsText(items: seq<Json>, rest: string)
    requires items != []
    ensures PrintItems(items) + "]" + rest == Print(items[0]) +
            if |items| == 1 then "]" + rest else ", " + (PrintItems(items[1..]) + "]" + rest)
  {
  }

  lemma {:induction false} FieldsText(fields: seq<Field>, rest: string)
    requires fields != []
    ensures PrintFields(fields) + "}" + rest == PrintField(fields[0]) +
            if |fields| == 1 then "}" + rest else ", " + (PrintFields(fields[1..]) + "}" + rest)
  {
  }

  lemma {:induction false} RoundTripItems(items: seq<Json>, rest: string)
    requires items != []
    ensures ParseItems(PrintItems(items) + "]" + rest) == Some((items, rest))
    decreases items, 0
  {
    var v := items[0];
    ItemsText(items, rest);
    if |items| == 1 {
      RoundTrip(v, "]" + rest);
      ParsesFirstItem(Print(v) + ("]" + rest), v, "]" + rest);
      ParsesLastItem(v, rest);
      assert items == [v];
    } else {
      var tail := PrintItems(items[1..]) + "]" + rest;
      RoundTrip(v, ", " + tail);
      RoundTripItems(items[1..], rest);
      ParsesFirstItem(Print(v) + (", " + tail), v, ", " + tail);
      ParsesNextItem(v, tail, items[1..], rest);
      assert items == [v] + items[1..];
    }
  }

  lemma {:induction false} RoundTripField(field: Field, rest: string)
    requires EndsNumber(rest)
    ensures ParseField(PrintField(field) + rest) == Some((field, rest))
    decreases field, 0
  {
    var tail := Print(field.value) + rest;
    var body := EscapeAll(field.key) + "\"" + (": " + tail);
    assert PrintField(field) + rest == "\"" + body;
    ParseEscaped(field.key, ": " + tail);
    ParsesField(body, field.key, tail);
    RoundTrip(field.value, rest);
    ParsesFieldValue(field.key, tail, field.value, rest);
  }

  lemma {:induction false} RoundTripFields(fields: seq<Field>, rest: string)
    requires fields != []
    ensures ParseFields(PrintFields(fields) + "}" + rest) == Some((fields, rest))
    decreases fields, 0
  {
    var f := fields[0];
    FieldsText(fields, rest);
    if |fields| == 1 {
      RoundTripField(f, "}" + rest);
      ParsesFirstField(PrintField(f) + ("}" + rest), f, "}" + rest);
      ParsesLastField(f, rest);
      assert fields == [f];
    } else {
      var tail := PrintFields(fields[1..]) + "}" + rest;
      RoundTripField(f, ", " + tail);
      RoundTripFields(fields[1..], rest);
      ParsesFirstField(PrintField(f) + (", " + tail), f, ", " + tail);
      ParsesNextField(f, tail, fields[1..], rest);
      assert fields == [f] + fields[1..];
    }
  }
}
