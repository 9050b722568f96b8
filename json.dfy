/**
 * The JSON layer under the storage codec: a JSON value, the compact text
 * `JSON.stringify` prints for it, and the reader `JSON.parse` applies to
 * stored text. Numbers are integers here (see README, "Left out").
 */
module Json {
  import opened Wrappers
  import opened Decimal

  /** A parsed JSON value. Object members keep their textual order, duplicates included. */
  datatype Json =
    | JNull
    | JBool(b: bool)
    | JNum(n: int)
    | JStr(s: string)
    | JArr(items: seq<Json>)
    | JObj(members: seq<(string, Json)>)

  /** Why `JSON.parse` rejects a text, or why the integer model cannot hold what it reads. */
  datatype ReadError =
    | Malformed       // not JSON text: JSON.parse throws a SyntaxError
    | NonInteger      // a number with a fraction or an exponent part
    | LoneSurrogate   // a \u escape of an unpaired UTF-16 surrogate

  // ---------------------------------------------------------------------------
  // Printing: JSON.stringify, which writes no white space
  // ---------------------------------------------------------------------------

  /** How JSON.stringify writes one character inside a string literal. */
  function EscapeChar(c: char): (r: string)
    ensures |r| > 0
  {
    var k := c as int;
    if c == '"' then "\\\""
    else if c == '\\' then "\\\\"
    else if k == 0x08 then "\\b"
    else if k == 0x09 then "\\t"
    else if k == 0x0A then "\\n"
    else if k == 0x0C then "\\f"
    else if k == 0x0D then "\\r"
    else if k < 0x20 then "\\u00" + [DigitChar(k / 16), DigitChar(k % 16)]
    else [c]
  }

  function Escape(s: string): string {
    if s == [] then [] else EscapeChar(s[0]) + Escape(s[1..])
  }

  /** A JSON string literal for `s`. */
  function Quote(s: string): string {
    "\"" + Escape(s) + "\""
  }

  function Print(j: Json): string {
    match j
    case JNull => "null"
    case JBool(b) => if b then "true" else "false"
    case JNum(n) => IntToDecimal(n)
    case JStr(s) => Quote(s)
    case JArr(items) => "[" + PrintItems(items) + "]"
    case JObj(members) => "{" + PrintMembers(members) + "}"
  }

  function PrintItems(xs: seq<Json>): string {
    if xs == [] then ""
    else if |xs| == 1 then Print(xs[0])
    else Print(xs[0]) + "," + PrintItems(xs[1..])
  }

  function PrintMember(m: (string, Json)): string {
    Quote(m.0) + ":" + Print(m.1)
  }

  function PrintMembers(ms: seq<(string, Json)>): string {
    if ms == [] then ""
    else if |ms| == 1 then PrintMember(ms[0])
    else PrintMember(ms[0]) + "," + PrintMembers(ms[1..])
  }

  // ---------------------------------------------------------------------------
  // Reading: JSON.parse
  // ---------------------------------------------------------------------------

  /** The longest string that occurs as a value inside `j` (object keys aside). */
  function MaxStr(j: Json): nat {
    match j
    case JStr(s) => |s|
    case JArr(items) => MaxStrItems(items)
    case JObj(members) => MaxStrMembers(members)
    case _ => 0
  }

  function MaxStrItems(xs: seq<Json>): (r: nat)
    ensures forall i :: 0 <= i < |xs| ==> MaxStr(xs[i]) <= r
  {
    if xs == [] then 0
    else
      assert forall i :: 1 <= i < |xs| ==> xs[i] == xs[1..][i - 1];
      Max(MaxStr(xs[0]), MaxStrItems(xs[1..]))
  }

  function MaxStrMembers(ms: seq<(string, Json)>): (r: nat)
    ensures forall i :: 0 <= i < |ms| ==> MaxStrMember(ms[i]) <= r
  {
    if ms == [] then 0
    else
      assert forall i :: 1 <= i < |ms| ==> ms[i] == ms[1..][i - 1];
      Max(MaxStrMember(ms[0]), MaxStrMembers(ms[1..]))
  }

  function MaxStrMember(m: (string, Json)): nat {
    MaxStr(m.1)
  }

  function Max(a: nat, b: nat): nat {
    if a < b then b else a
  }

  /** JSON's insignificant white space. */
  predicate IsWs(c: char) {
    c == ' ' || c == '\t' || c == '\n' || c == '\r'
  }

  function SkipWs(s: string): (r: string)
    ensures |r| <= |s|
    ensures r == [] || !IsWs(r[0])
  {
    if s != [] && IsWs(s[0]) then SkipWs(s[1..]) else s
  }

  function ParseLiteral(t: string, word: string, j: Json): (r: Result<(Json, string), ReadError>)
    requires |word| > 0
    ensures r.Ok? ==> |r.value.1| < |t| && r.value.0 == j
  {
    if |word| <= |t| && t[..|word|] == word then Ok((j, t[|word|..])) else Err(Malformed)
  }

  /** Four hexadecimal digits, as they follow `\u`. */
  function Hex4(w: string): (r: Option<nat>)
    ensures r.Some? ==> |w| >= 4 && r.value < 0x10000
  {
    if |w| < 4 then None
    else match (CharValue(w[0]), CharValue(w[1]), CharValue(w[2]), CharValue(w[3]))
      case (Some(a), Some(b), Some(c), Some(d)) => Some(a * 0x1000 + b * 0x100 + c * 0x10 + d)
      case _ => None
  }

  /** The character an escape sequence stands for; `v` follows the backslash. */
  function ParseEscape(v: string): (r: Result<(char, string), ReadError>)
    ensures r.Ok? ==> |r.value.1| < |v|
  {
    if v == [] then Err(Malformed)
    else if v[0] == '"' then Ok(('"', v[1..]))
    else if v[0] == '\\' then Ok(('\\', v[1..]))
    else if v[0] == '/' then Ok(('/', v[1..]))
    else if v[0] == 'b' then Ok((0x08 as char, v[1..]))
    else if v[0] == 't' then Ok(('\t', v[1..]))
    else if v[0] == 'n' then Ok(('\n', v[1..]))
    else if v[0] == 'f' then Ok((0x0C as char, v[1..]))
    else if v[0] == 'r' then Ok(('\r', v[1..]))
    else if v[0] != 'u' then Err(Malformed)
    else match Hex4(v[1..])
      case None => Err(Malformed)
      case Some(hi) =>
        if hi < 0xD800 || 0xE000 <= hi then Ok((hi as char, v[5..]))
        else if 0xDC00 <= hi || |v| < 7 || v[5] != '\\' || v[6] != 'u' then Err(LoneSurrogate)
        else match Hex4(v[7..])
          case None => Err(Malformed)
          case Some(lo) =>
            if 0xDC00 <= lo < 0xE000 then
              Ok(((0x10000 + (hi - 0xD800) * 0x400 + (lo - 0xDC00)) as char, v[11..]))
            else Err(LoneSurrogate)
  }

  /** One character of a string literal, escaped or not. */
  function ParseChar(u: string): (r: Result<(char, string), ReadError>)
    requires u != []
    ensures r.Ok? ==> |r.value.1| < |u|
  {
    if u[0] == '\\' then ParseEscape(u[1..]) else Ok((u[0], u[1..]))
  }

  /** The characters of a string literal up to its closing quote; `u` follows the opening quote. */
  function ParseChars(u: string): (r: Result<(string, string), ReadError>)
    ensures r.Ok? ==> |r.value.0| + 1 <= |u| - |r.value.1|
  {
    if u == [] then Err(Malformed)
    else if u[0] == '"' then Ok(([], u[1..]))
    else if (u[0] as int) < 0x20 then Err(Malformed)
    else
      var (c, rest) :- ParseChar(u);
      var (tail, rest') :- ParseChars(rest);
      Ok(([c] + tail, rest'))
  }

  /** Whether `s` starts with a valid fraction and/or exponent part of a JSON number. */
  predicate FracExpValid(s: string) {
    var afterFrac :=
      if s != [] && s[0] == '.' then
        var k := SpanDigitsIn(s[1..], 10);
        if k == 0 then None else Some(s[1 + k..])
      else Some(s);
    match afterFrac
    case None => false
    case Some(e) =>
      if e != [] && (e[0] == 'e' || e[0] == 'E') then
        var d := if |e| > 1 && (e[1] == '+' || e[1] == '-') then e[2..] else e[1..];
        SpanDigitsIn(d, 10) > 0
      else true
  }

  /**
   * The digits of a JSON number after its optional minus sign: "0" or a
   * digit string without a leading zero, not followed by a fraction or an
   * exponent.
   */
  function ParseUnsigned(u: string): (r: Result<(nat, string), ReadError>)
    ensures r.Ok? ==> |r.value.1| < |u|
  {
    if u == [] || !IsDigit(u[0]) then Err(Malformed)
    else
      DigitIsDecimalDigit(u[0]);
      var k := if u[0] == '0' then 1 else SpanDigitsIn(u, 10);
      var after := u[k..];
      if after != [] && (after[0] == '.' || after[0] == 'e' || after[0] == 'E') then
        if FracExpValid(after) then Err(NonInteger) else Err(Malformed)
      else Ok((ValueIn(u[..k], 10), after))
  }

  /** A JSON number; `t` starts with '-' or a digit. */
  function ParseNumber(t: string): (r: Result<(Json, string), ReadError>)
    ensures r.Ok? ==> |r.value.1| < |t| && r.value.0.JNum?
  {
    if t != [] && t[0] == '-' then
      var (m, rest) :- ParseUnsigned(t[1..]);
      var n: int := -(m as int);
      Ok((JNum(n), rest))
    else
      var (m, rest) :- ParseUnsigned(t);
      Ok((JNum(m), rest))
  }

  function ParseValue(s: string): (r: Result<(Json, string), ReadError>)
    ensures r.Ok? ==> |r.value.1| < |s| && MaxStr(r.value.0) < |s| - |r.value.1|
    decreases |s|, 1
  {
    var t := SkipWs(s);
    if t == [] then Err(Malformed)
    else if t[0] == 'n' then ParseLiteral(t, "null", JNull)
    else if t[0] == 't' then ParseLiteral(t, "true", JBool(true))
    else if t[0] == 'f' then ParseLiteral(t, "false", JBool(false))
    else if t[0] == '"' then
      var (str, rest) :- ParseChars(t[1..]);
      Ok((JStr(str), rest))
    else if t[0] == '[' then ParseArray(t[1..])
    else if t[0] == '{' then ParseObject(t[1..])
    else if t[0] == '-' || IsDigit(t[0]) then ParseNumber(t)
    else Err(Malformed)
  }

  /** The rest of an array; `s` follows the '['. */
  function ParseArray(s: string): (r: Result<(Json, string), ReadError>)
    ensures r.Ok? ==> |r.value.1| < |s| && MaxStr(r.value.0) < |s| - |r.value.1|
    decreases |s|, 3
  {
    var t := SkipWs(s);
    if t != [] && t[0] == ']' then Ok((JArr([]), t[1..]))
    else
      var (xs, rest) :- ParseItems(t);
      Ok((JArr(xs), rest))
  }

  /** One or more comma-separated values and the closing ']'. */
  function ParseItems(s: string): (r: Result<(seq<Json>, string), ReadError>)
    ensures r.Ok? ==> |r.value.1| < |s| && MaxStrItems(r.value.0) < |s| - |r.value.1|
    decreases |s|, 2
  {
    var (x, rest) :- ParseValue(s);
    var t := SkipWs(rest);
    if t == [] then Err(Malformed)
    else if t[0] == ']' then Ok(([x], t[1..]))
    else if t[0] == ',' then
      var (xs, rest') :- ParseItems(t[1..]);
      Ok(([x] + xs, rest'))
    else Err(Malformed)
  }

  /** The rest of an object; `s` follows the '{'. */
  function ParseObject(s: string): (r: Result<(Json, string), ReadError>)
    ensures r.Ok? ==> |r.value.1| < |s| && MaxStr(r.value.0) < |s| - |r.value.1|
    decreases |s|, 3
  {
    var t := SkipWs(s);
    if t != [] && t[0] == '}' then Ok((JObj([]), t[1..]))
    else
      var (ms, rest) :- ParseMembers(t);
      Ok((JObj(ms), rest))
  }

  /** One `"key":value` member. */
  function ParseMember(s: string): (r: Result<((string, Json), string), ReadError>)
    ensures r.Ok? ==> |r.value.1| < |s| && MaxStrMember(r.value.0) < |s| - |r.value.1|
    decreases |s|, 1
  {
    var t := SkipWs(s);
    if t == [] || t[0] != '"' then Err(Malformed)
    else
      var (key, afterKey) :- ParseChars(t[1..]);
      ParseMemberValue(key, afterKey)
  }

  /** The `:value` part of a member whose key has been read. */
  function ParseMemberValue(key: string, s: string): (r: Result<((string, Json), string), ReadError>)
    ensures r.Ok? ==> |r.value.1| < |s| && MaxStrMember(r.value.0) < |s| - |r.value.1|
    ensures r.Ok? ==> r.value.0.0 == key
    decreases |s|, 1
  {
    var colon := SkipWs(s);
    if colon == [] || colon[0] != ':' then Err(Malformed)
    else
      var (v, rest) :- ParseValue(colon[1..]);
      Ok(((key, v), rest))
  }

  /** One or more comma-separated members and the closing '}'. */
  function ParseMembers(s: string): (r: Result<(seq<(string, Json)>, string), ReadError>)
    ensures r.Ok? ==> |r.value.1| < |s| && MaxStrMembers(r.value.0) < |s| - |r.value.1|
    decreases |s|, 2
  {
    var (m, rest) :- ParseMember(s);
    var t := SkipWs(rest);
    if t == [] then Err(Malformed)
    else if t[0] == '}' then Ok(([m], t[1..]))
    else if t[0] == ',' then
      var (ms, rest') :- ParseMembers(t[1..]);
      Ok(([m] + ms, rest'))
    else Err(Malformed)
  }

  /**
   * JSON.parse: one value, with white space allowed around it and nothing else.
   * Every string inside the result is shorter than the text it was read from.
   */
  function Read(text: string): (r: Result<Json, ReadError>)
    ensures r.Ok? ==> MaxStr(r.value) < |text|
  {
    var (j, rest) :- ParseValue(text);
    if SkipWs(rest) == [] then Ok(j) else Err(Malformed)
  }

  // ---------------------------------------------------------------------------
  // Round trip: JSON.parse(JSON.stringify(j)) == j
  // ---------------------------------------------------------------------------

  /** What may follow a value that JSON.stringify wrote inside an array or object. */
  predicate Delimited(rest: string) {
    rest == [] || rest[0] == ',' || rest[0] == ']' || rest[0] == '}'
  }

  lemma SkipWsNoWs(s: string)
    requires s == [] || !IsWs(s[0])
    ensures SkipWs(s) == s
  {
  }

  lemma EscapeCharRoundTrip(c: char, rest: string)
    ensures ParseChars(EscapeChar(c) + rest) == (
      match ParseChars(rest)
      case Ok((tail, rest')) => Ok(([c] + tail, rest'))
      case Err(e) => Err(e))
  {
    var u := EscapeChar(c) + rest;
    var k := c as int;
    if c == '"' || c == '\\' || k == 0x08 || k == 0x09 || k == 0x0A || k == 0x0C || k == 0x0D {
      ShortEscapeReads(c, rest);
    } else if k < 0x20 {
      UnicodeEscapeReads(c, rest);
    } else {
      assert u[0] == c && u[1..] == rest;
    }
  }

  lemma ShortEscapeReads(c: char, rest: string)
    requires var k := c as int; c == '"' || c == '\\' || k == 0x08 || k == 0x09 || k == 0x0A || k == 0x0C || k == 0x0D
    ensures var u := EscapeChar(c) + rest; u[0] == '\\' && ParseChar(u) == Ok((c, rest))
  {
    var u := EscapeChar(c) + rest;
    assert u[0] == '\\' && u[2..] == rest;
  }

  lemma UnicodeEscapeReads(c: char, rest: string)
    requires var k := c as int; k < 0x20 && k != 0x08 && k != 0x09 && k != 0x0A && k != 0x0C && k != 0x0D
    ensures var u := EscapeChar(c) + rest; u[0] == '\\' && ParseChar(u) == Ok((c, rest))
  {
    var k := c as int;
    var u := EscapeChar(c) + rest;
    var hi, lo := DigitChar(k / 16), DigitChar(k % 16);
    assert u[0] == '\\' && u[1] == 'u';
    assert u[1..][1..][..4] == ['0', '0', hi, lo];
    assert Hex4(u[1..][1..]) == Some(k);
    assert u[1..][5..] == rest;
  }

  /** A string literal JSON.stringify wrote reads back as the same string. */
  lemma {:induction false} StringRoundTrip(s: string, rest: string)
    ensures ParseChars(Escape(s) + "\"" + rest) == Ok((s, rest))
  {
    if s == [] {
      assert Escape(s) + "\"" + rest == "\"" + rest;
    } else {
      assert Escape(s) + "\"" + rest == EscapeChar(s[0]) + (Escape(s[1..]) + "\"" + rest);
      StringRoundTrip(s[1..], rest);
      EscapeCharRoundTrip(s[0], Escape(s[1..]) + "\"" + rest);
      assert [s[0]] + s[1..] == s;
    }
  }

  lemma {:induction false} UnsignedRoundTrip(m: nat, rest: string)
    requires Delimited(rest)
    ensures ParseUnsigned(NatToDigits(m) + rest) == Ok((m, rest))
  {
    var ds := NatToDigits(m);
    var u := ds + rest;
    NatToDigitsRoundTrip(m);
    DigitIsDecimalDigit(u[0]);
    if rest != [] {
      assert !IsDigitIn(rest[0], 10);
    }
    if u[0] == '0' {
      assert u[..1] == ds;
    } else {
      SpanDigitsOfDigits(ds, rest, 10);
      assert u[..|ds|] == ds;
    }
    assert u[|ds|..] == rest;
  }

  lemma NumberRoundTrip(n: int, rest: string)
    requires Delimited(rest)
    ensures ParseNumber(IntToDecimal(n) + rest) == Ok((JNum(n), rest))
  {
    if n < 0 {
      var m: nat := -n;
      NegativeRoundTrip(m, rest);
      assert IntToDecimal(n) == "-" + NatToDigits(m);
      assert IntToDecimal(n) + rest == "-" + NatToDigits(m) + rest;
    } else {
      NonNegativeRoundTrip(n, rest);
    }
  }

  lemma NegativeRoundTrip(m: nat, rest: string)
    requires Delimited(rest)
    ensures ParseNumber("-" + NatToDigits(m) + rest) == Ok((JNum(-(m as int)), rest))
  {
    var u := NatToDigits(m) + rest;
    assert "-" + NatToDigits(m) + rest == "-" + u;
    UnsignedRoundTrip(m, rest);
    NegativeNumber(u);
  }

  /** A minus sign followed by what `ParseUnsigned` reads is the negated number. */
  lemma NegativeNumber(u: string)
    ensures ParseNumber("-" + u) == (
      match ParseUnsigned(u)
      case Ok((m, rest)) => Ok((JNum(-(m as int)), rest))
      case Err(e) => Err(e))
  {
    assert ("-" + u)[0] == '-' && ("-" + u)[1..] == u;
  }

  lemma NonNegativeRoundTrip(m: nat, rest: string)
    requires Delimited(rest)
    ensures ParseNumber(NatToDigits(m) + rest) == Ok((JNum(m), rest))
  {
    var t := NatToDigits(m) + rest;
    assert t[0] == NatToDigits(m)[0] && t[0] != '-';
    UnsignedRoundTrip(m, rest);
  }

  lemma PrintStartsWithToken(j: Json)
    ensures |Print(j)| > 0 && !IsWs(Print(j)[0])
  {
  }

  /** Every value JSON.stringify writes is read back by JSON.parse as itself. */
  lemma {:induction false} ValueRoundTrip(j: Json, rest: string)
    requires Delimited(rest)
    ensures ParseValue(Print(j) + rest) == Ok((j, rest))
    decreases j, 3
  {
    match j
    case JNull => LiteralRoundTrip(j, rest);
    case JBool(_) => LiteralRoundTrip(j, rest);
    case JNum(n) => NumValueRoundTrip(n, rest);
    case JStr(s) => StrValueRoundTrip(s, rest);
    case JArr(items) => ArrValueRoundTrip(items, rest);
    case JObj(members) => ObjValueRoundTrip(members, rest);
  }

  lemma NumValueRoundTrip(n: int, rest: string)
    requires Delimited(rest)
    ensures ParseValue(Print(JNum(n)) + rest) == Ok((JNum(n), rest))
  {
    var text := IntToDecimal(n) + rest;
    assert Print(JNum(n)) == IntToDecimal(n);
    assert text[0] == '-' || IsDigit(text[0]);
    ParseValueNumber(text);
    NumberRoundTrip(n, rest);
  }

  /** A value that starts with a minus sign or a digit is read as a number. */
  lemma ParseValueNumber(t: string)
    requires t != [] && (t[0] == '-' || IsDigit(t[0]))
    ensures ParseValue(t) == ParseNumber(t)
  {
    SkipWsNoWs(t);
    assert t[0] != 'n' && t[0] != 't' && t[0] != 'f' && t[0] != '"' && t[0] != '[' && t[0] != '{';
  }

  lemma StrValueRoundTrip(s: string, rest: string)
    ensures ParseValue(Print(JStr(s)) + rest) == Ok((JStr(s), rest))
  {
    Regroup4("\"", Escape(s), "\"", rest);
    ParseValueString(Escape(s) + "\"" + rest);
    StringRoundTrip(s, rest);
  }

  lemma {:induction false} ArrValueRoundTrip(items: seq<Json>, rest: string)
    ensures ParseValue(Print(JArr(items)) + rest) == Ok((JArr(items), rest))
    decreases items, 2
  {
    Regroup4("[", PrintItems(items), "]", rest);
    ParseValueArray(PrintItems(items) + "]" + rest);
    ArrayRoundTrip(items, rest);
  }

  lemma {:induction false} ObjValueRoundTrip(members: seq<(string, Json)>, rest: string)
    ensures ParseValue(Print(JObj(members)) + rest) == Ok((JObj(members), rest))
    decreases members, 2
  {
    Regroup4("{", PrintMembers(members), "}", rest);
    ParseValueObject(PrintMembers(members) + "}" + rest);
    ObjectRoundTrip(members, rest);
  }

  /** A value that starts with a quote is read as a string literal. */
  lemma ParseValueString(u: string)
    ensures ParseValue("\"" + u) == (
      match ParseChars(u)
      case Ok((str, rest)) => Ok((JStr(str), rest))
      case Err(e) => Err(e))
  {
    var t := "\"" + u;
    SkipWsNoWs(t);
    assert t[0] == '"' && t[1..] == u;
  }

  /** A value that starts with '[' is read as an array. */
  lemma ParseValueArray(u: string)
    ensures ParseValue("[" + u) == ParseArray(u)
  {
    var t := "[" + u;
    SkipWsNoWs(t);
    assert t[0] == '[' && t[1..] == u;
  }

  /** A value that starts with '{' is read as an object. */
  lemma ParseValueObject(u: string)
    ensures ParseValue("{" + u) == ParseObject(u)
  {
    var t := "{" + u;
    SkipWsNoWs(t);
    assert t[0] == '{' && t[1..] == u;
  }

  lemma Regroup4(a: string, b: string, c: string, d: string)
    ensures a + b + c + d == a + (b + c + d)
  {
  }

  lemma LiteralRoundTrip(j: Json, rest: string)
    requires j.JNull? || j.JBool?
    ensures ParseValue(Print(j) + rest) == Ok((j, rest))
  {
    var text := Print(j) + rest;
    SkipWsNoWs(text);
    if j.JNull? {
      assert text[..4] == "null";
    } else if j.b {
      assert text[..4] == "true";
    } else {
      assert text[..5] == "false";
    }
  }

  lemma {:induction false} ArrayRoundTrip(items: seq<Json>, rest: string)
    ensures ParseArray(PrintItems(items) + "]" + rest) == Ok((JArr(items), rest))
    decreases items, 1
  {
    var s := PrintItems(items) + "]" + rest;
    if items == [] {
      assert s == "]" + rest;
      SkipWsNoWs(s);
    } else {
      ItemsRoundTrip(items, rest);
      PrintStartsWithToken(items[0]);
      assert s[0] == Print(items[0])[0];
      SkipWsNoWs(s);
    }
  }

  lemma {:induction false} ObjectRoundTrip(members: seq<(string, Json)>, rest: string)
    ensures ParseObject(PrintMembers(members) + "}" + rest) == Ok((JObj(members), rest))
    decreases members, 1
  {
    var s := PrintMembers(members) + "}" + rest;
    if members == [] {
      assert s == "}" + rest;
      SkipWsNoWs(s);
    } else {
      MembersRoundTrip(members, rest);
      assert s[0] == '"';
      SkipWsNoWs(s);
    }
  }

  lemma {:induction false} ItemsRoundTrip(xs: seq<Json>, rest: string)
    requires xs != []
    ensures ParseItems(PrintItems(xs) + "]" + rest) == Ok((xs, rest))
    decreases xs, 0
  {
    if |xs| == 1 {
      PrintOneItem(xs, rest);
      ValueRoundTrip(xs[0], "]" + rest);
      ItemsLast(Print(xs[0]) + ("]" + rest), xs[0], rest);
      assert [xs[0]] == xs;
    } else {
      var tail := PrintItems(xs[1..]) + "]" + rest;
      PrintMoreItems(xs, rest);
      ValueRoundTrip(xs[0], "," + tail);
      ItemsRoundTrip(xs[1..], rest);
      ItemsNext(Print(xs[0]) + ("," + tail), xs[0], tail, xs[1..], rest);
      assert [xs[0]] + xs[1..] == xs;
    }
  }

  lemma PrintOneItem(xs: seq<Json>, rest: string)
    requires |xs| == 1
    ensures PrintItems(xs) + "]" + rest == Print(xs[0]) + ("]" + rest)
  {
  }

  lemma PrintMoreItems(xs: seq<Json>, rest: string)
    requires |xs| > 1
    ensures PrintItems(xs) + "]" + rest == Print(xs[0]) + ("," + (PrintItems(xs[1..]) + "]" + rest))
  {
    PrintItemsUnfold(xs);
    Regroup(Print(xs[0]), ",", PrintItems(xs[1..]), "]", rest);
  }

  lemma PrintItemsUnfold(xs: seq<Json>)
    requires |xs| > 1
    ensures PrintItems(xs) == Print(xs[0]) + "," + PrintItems(xs[1..])
  {
  }

  lemma Regroup(a: string, b: string, c: string, d: string, e: string)
    ensures a + b + c + d + e == a + (b + (c + d + e))
  {
  }

  lemma ItemsLast(s: string, x: Json, rest: string)
    requires ParseValue(s) == Ok((x, "]" + rest))
    ensures ParseItems(s) == Ok(([x], rest))
  {
    SkipWsNoWs("]" + rest);
    assert ("]" + rest)[1..] == rest;
  }

  lemma ItemsNext(s: string, x: Json, tail: string, xs: seq<Json>, rest: string)
    requires ParseValue(s) == Ok((x, "," + tail))
    requires ParseItems(tail) == Ok((xs, rest))
    ensures ParseItems(s) == Ok(([x] + xs, rest))
  {
    SkipWsNoWs("," + tail);
    assert ("," + tail)[1..] == tail;
  }

  lemma {:induction false} MemberRoundTrip(m: (string, Json), rest: string)
    requires Delimited(rest)
    ensures ParseMember(PrintMember(m) + rest) == Ok((m, rest))
    decreases m, 1
  {
    var afterKey := ":" + Print(m.1) + rest;
    Regroup4(Quote(m.0), ":", Print(m.1), rest);
    KeyRoundTrip(m.0, afterKey);
    MemberValueRoundTrip(m.0, m.1, rest);
  }

  lemma {:induction false} MemberValueRoundTrip(key: string, v: Json, rest: string)
    requires Delimited(rest)
    ensures ParseMemberValue(key, ":" + Print(v) + rest) == Ok(((key, v), rest))
    decreases v, 4
  {
    var s := ":" + Print(v) + rest;
    SkipWsNoWs(s);
    assert s[1..] == Print(v) + rest;
    ValueRoundTrip(v, rest);
  }

  /** A member whose key JSON.stringify wrote goes on to its value part. */
  lemma KeyRoundTrip(key: string, afterKey: string)
    ensures ParseMember(Quote(key) + afterKey) == ParseMemberValue(key, afterKey)
  {
    var text := Quote(key) + afterKey;
    Regroup4("\"", Escape(key), "\"", afterKey);
    SkipWsNoWs(text);
    assert text[0] == '"' && text[1..] == Escape(key) + "\"" + afterKey;
    StringRoundTrip(key, afterKey);
  }

  lemma {:induction false} MembersRoundTrip(ms: seq<(string, Json)>, rest: string)
    requires ms != []
    ensures ParseMembers(PrintMembers(ms) + "}" + rest) == Ok((ms, rest))
    decreases ms, 0
  {
    if |ms| == 1 {
      PrintOneMember(ms, rest);
      MemberRoundTrip(ms[0], "}" + rest);
      MembersLast(PrintMember(ms[0]) + ("}" + rest), ms[0], rest);
      assert [ms[0]] == ms;
    } else {
      var tail := PrintMembers(ms[1..]) + "}" + rest;
      PrintMoreMembers(ms, rest);
      MemberRoundTrip(ms[0], "," + tail);
      MembersRoundTrip(ms[1..], rest);
      MembersNext(PrintMember(ms[0]) + ("," + tail), ms[0], tail, ms[1..], rest);
      assert [ms[0]] + ms[1..] == ms;
    }
  }

  lemma PrintOneMember(ms: seq<(string, Json)>, rest: string)
    requires |ms| == 1
    ensures PrintMembers(ms) + "}" + rest == PrintMember(ms[0]) + ("}" + rest)
  {
  }

  lemma PrintMoreMembers(ms: seq<(string, Json)>, rest: string)
    requires |ms| > 1
    ensures PrintMembers(ms) + "}" + rest == PrintMember(ms[0]) + ("," + (PrintMembers(ms[1..]) + "}" + rest))
  {
    PrintMembersUnfold(ms);
    Regroup(PrintMember(ms[0]), ",", PrintMembers(ms[1..]), "}", rest);
  }

  lemma PrintMembersUnfold(ms: seq<(string, Json)>)
    requires |ms| > 1
    ensures PrintMembers(ms) == PrintMember(ms[0]) + "," + PrintMembers(ms[1..])
  {
  }

  lemma MembersLast(s: string, m: (string, Json), rest: string)
    requires ParseMember(s) == Ok((m, "}" + rest))
    ensures ParseMembers(s) == Ok(([m], rest))
  {
    SkipWsNoWs("}" + rest);
    assert ("}" + rest)[1..] == rest;
  }

  lemma MembersNext(s: string, m: (string, Json), tail: string, ms: seq<(string, Json)>, rest: string)
    requires ParseMember(s) == Ok((m, "," + tail))
    requires ParseMembers(tail) == Ok((ms, rest))
    ensures ParseMembers(s) == Ok(([m] + ms, rest))
  {
    SkipWsNoWs("," + tail);
    assert ("," + tail)[1..] == tail;
  }

  /** JSON.parse(JSON.stringify(j)) gives back `j`. */
  lemma ReadPrint(j: Json)
    ensures Read(Print(j)) == Ok(j)
  {
    ValueRoundTrip(j, []);
    assert Print(j) + [] == Print(j);
  }
}

/**
 * The JavaScript object that JSON.parse builds from a member list: a later
 * duplicate key overwrites the value but keeps the key's first position.
 */
module JsonObject {
  import opened Wrappers
  import opened Json

  predicate UniqueKeys(ms: seq<(string, Json)>) {
    forall i, j :: 0 <= i < j < |ms| ==> ms[i].0 != ms[j].0
  }

  /** The value of own property `key`: the last member with that key. */
  function Lookup(ms: seq<(string, Json)>, key: string): (r: Option<Json>)
    ensures r.Some? ==> MaxStr(r.value) <= MaxStrMembers(ms)
    ensures r.None? <==> forall i :: 0 <= i < |ms| ==> ms[i].0 != key
  {
    if ms == [] then None
    else match Lookup(ms[1..], key)
      case Some(v) => Some(v)
      case None => if ms[0].0 == key then Some(ms[0].1) else None
  }

  /** Defining `m` on an object given by its own entries. */
  function Assign(acc: seq<(string, Json)>, m: (string, Json)): (r: seq<(string, Json)>)
    ensures MaxStrMembers(r) <= Max(MaxStrMembers(acc), MaxStr(m.1))
    ensures (forall i :: 0 <= i < |acc| ==> acc[i].0 != m.0) ==> r == acc + [m]
  {
    if acc == [] then [m]
    else if acc[0].0 == m.0 then [m] + acc[1..]
    else [acc[0]] + Assign(acc[1..], m)
  }

  /** Object.entries of the object JSON.parse builds from the members `ms`. */
  function Entries(ms: seq<(string, Json)>): (r: seq<(string, Json)>)
    ensures MaxStrMembers(r) <= MaxStrMembers(ms)
  {
    if ms == [] then []
    else
      MaxStrMembersSplit(ms);
      Assign(Entries(ms[..|ms| - 1]), ms[|ms| - 1])
  }

  lemma {:induction false} MaxStrMembersSplit(ms: seq<(string, Json)>)
    requires ms != []
    ensures MaxStrMembers(ms) == Max(MaxStrMembers(ms[..|ms| - 1]), MaxStr(ms[|ms| - 1].1))
  {
    if |ms| > 1 {
      MaxStrMembersSplit(ms[1..]);
      assert ms[1..][..|ms[1..]| - 1] == ms[..|ms| - 1][1..];
    } else {
      assert ms[..0] == [];
    }
  }

  /** Without duplicate keys, the parsed object has exactly the members of the text, in order. */
  lemma {:induction false} EntriesOfUniqueKeys(ms: seq<(string, Json)>)
    requires UniqueKeys(ms)
    ensures Entries(ms) == ms
  {
    if ms != [] {
      var init := ms[..|ms| - 1];
      EntriesOfUniqueKeys(init);
      assert init + [ms[|ms| - 1]] == ms;
    }
  }
}
