/**
 * The JavaScript conversions the storage decoder applies to the `value` field
 * of a parsed record: `Boolean(x)`, `String(x)`, `Number(x)`, `BigInt(x)`,
 * `new Date(x)` and `new RegExp(x)`. `None` stands for `undefined` (a missing
 * field).
 */
module JsConvert {
  import opened Wrappers
  import opened Decimal
  import opened Json
  import opened JsonObject

  /** What a JavaScript operation of the decoder or encoder throws. */
  datatype Error =
    | Thrown(message: string)   // `new Error(message)` thrown by stringify or parse
    | SyntaxError               // JSON.parse or BigInt(string) rejected the text
    | TypeError                 // a property read on null, `map` on a non-array, BigInt(undefined), ...
    | NotModelled(what: Unmodelled) // JavaScript yields a value this model does not hold

  /** The JavaScript outcomes this model does not hold. */
  datatype Unmodelled =
    | FractionOrExponent  // a JSON number with a fraction or an exponent part
    | UnpairedSurrogate   // a \u escape of a lone UTF-16 surrogate
    | NonIntegerNumber    // Number(x) is NaN or not an integer, or its text has a fraction or an exponent
    | NestedArray         // an array element that is itself an array
    | InvalidDate         // `new Date(x)` is an Invalid Date
    | DateFromText        // `new Date(x)` parses a date from text

  /** Boolean(x): JavaScript truthiness. */
  function ToBoolean(x: Option<Json>): (r: bool)
    ensures x.None? || x == Some(JNull) ==> !r
    ensures (x.Some? && x.value.JBool?) ==> r == x.value.b
  {
    match x
    case None => false
    case Some(JNull) => false
    case Some(JBool(b)) => b
    case Some(JNum(n)) => n != 0
    case Some(JStr(s)) => s != []
    case Some(_) => true
  }

  /**
   * An object JSON.parse built has its own `toString` member. No JSON value
   * is callable, and the inherited `valueOf` returns the object itself, so
   * ToPrimitive of such an object throws a TypeError whatever its hint.
   */
  predicate OwnsToString(ms: seq<(string, Json)>) {
    Lookup(ms, "toString").Some?
  }

  /** String(x) for a JSON value; it throws only on an object with its own `toString`, at any depth of an array. */
  function JsonToString(j: Json): (r: Result<string, Error>)
    ensures r.Err? ==> r.error == TypeError
    ensures j.JStr? ==> r == Ok(j.s)
    ensures j.JObj? ==> (r.Err? <==> OwnsToString(j.members))
  {
    match j
    case JNull => Ok("null")
    case JBool(b) => Ok(if b then "true" else "false")
    case JNum(n) => Ok(IntToDecimal(n))
    case JStr(s) => Ok(s)
    case JArr(items) => JoinItems(items)
    case JObj(ms) => if OwnsToString(ms) then Err(TypeError) else Ok("[object Object]")
  }

  /** Array.prototype.join(","), as String(array) calls it: null elements print as "". */
  function JoinItems(xs: seq<Json>): (r: Result<string, Error>)
    ensures r.Err? ==> r.error == TypeError
  {
    if xs == [] then Ok("")
    else
      var first :- if xs[0] == JNull then Ok("") else JsonToString(xs[0]);
      if |xs| == 1 then Ok(first)
      else
        var others :- JoinItems(xs[1..]);
        Ok(first + "," + others)
  }

  /** String(x), with `undefined` for a missing field. */
  function ToJsString(x: Option<Json>): (r: Result<string, Error>)
    ensures x.None? ==> r == Ok("undefined")
    ensures x.Some? && x.value.JStr? ==> r == Ok(x.value.s)
    ensures x.Some? && x.value.JObj? ==> (r.Err? <==> OwnsToString(x.value.members))
    ensures r.Err? ==> r.error == TypeError
  {
    match x
    case None => Ok("undefined")
    case Some(j) => JsonToString(j)
  }

  /**
   * StringToNumber for the integer texts this model holds: an empty or
   * all-white-space text is 0; an optionally signed decimal literal or an
   * unsigned 0x/0o/0b literal is its value; `None` stands for every other
   * result (NaN, a fraction, an exponent literal, Infinity).
   */
  function StringToNumber(s: string): Option<int> {
    var t := Trim(s);
    if t == [] then Some(0)
    else match SignedDecimal(t)
      case Some(i) => Some(i)
      case None =>
        match NonDecimal(t)
        case Some(n) => Some(n)
        case None => None
  }

  /** Number() of a text: its integer value, or the number this model does not hold. */
  function NumberOfText(s: string): Result<int, Error> {
    match StringToNumber(s)
    case Some(n) => Ok(n)
    case None => Err(NotModelled(NonIntegerNumber))
  }

  /**
   * Number(x). NaN, and a result that is not an integer or is written with a
   * fraction or an exponent, are numbers the model does not hold; an object
   * with its own `toString`, also inside an array, throws a TypeError.
   */
  function ToNumber(x: Option<Json>): (r: Result<int, Error>)
    ensures x.Some? && x.value.JNum? ==> r == Ok(x.value.n)
    ensures x.Some? && x.value.JObj? ==> (r == Err(TypeError) <==> OwnsToString(x.value.members))
    ensures r.Err? ==> r.error == TypeError || r.error == NotModelled(NonIntegerNumber)
  {
    match x
    case None => Err(NotModelled(NonIntegerNumber))
    case Some(JNull) => Ok(0)
    case Some(JBool(b)) => Ok(if b then 1 else 0)
    case Some(JNum(n)) => Ok(n)
    case Some(JStr(s)) => NumberOfText(s)
    case Some(JArr(items)) =>
      var text :- JoinItems(items);
      NumberOfText(text)
    case Some(JObj(ms)) => if OwnsToString(ms) then Err(TypeError) else Err(NotModelled(NonIntegerNumber))
  }

  /**
   * StringToBigInt: the same integer literals StringToNumber reads (an empty
   * or all-white-space text is 0n); anything else makes BigInt throw a
   * SyntaxError.
   */
  function StringToBigInt(s: string): (r: Result<int, Error>)
    ensures r.Err? ==> r.error == SyntaxError
    ensures Trim(s) == [] ==> r == Ok(0)
    ensures r.Ok? <==> StringToNumber(s).Some?
    ensures r.Ok? ==> StringToNumber(s) == Some(r.value)
  {
    match StringToNumber(s)
    case Some(n) => Ok(n)
    case None => Err(SyntaxError)
  }

  /** BigInt(x). */
  function ToBigInt(x: Option<Json>): (r: Result<int, Error>)
    ensures x.None? || x == Some(JNull) ==> r == Err(TypeError)
    ensures x.Some? && x.value.JObj? ==> r == if OwnsToString(x.value.members) then Err(TypeError) else Err(SyntaxError)
  {
    match x
    case None => Err(TypeError)
    case Some(JNull) => Err(TypeError)
    case Some(JBool(b)) => Ok(if b then 1 else 0)
    case Some(JNum(n)) => Ok(n)
    case Some(JStr(s)) => StringToBigInt(s)
    case Some(JArr(items)) =>
      var text :- JoinItems(items);
      StringToBigInt(text)
    case Some(JObj(ms)) => if OwnsToString(ms) then Err(TypeError) else Err(SyntaxError)    // "[object Object]" is no literal
  }

  /** The largest magnitude of a valid time value: 8.64e15 ms, 100,000,000 days. */
  const MaxTime: int := 8_640_000_000_000_000

  /**
   * The time value of `new Date(x)`. A number is kept when TimeClip accepts
   * it; every other outcome is an Invalid Date or a date parsed from text,
   * which the model does not hold.
   */
  function ToDateTime(x: Option<Json>): (r: Result<int, Error>)
    ensures r.Ok? ==> -MaxTime <= r.value <= MaxTime
    ensures x.Some? && x.value.JObj? ==> (r == Err(TypeError) <==> OwnsToString(x.value.members))
    ensures x.Some? && x.value.JNum? && -MaxTime <= x.value.n <= MaxTime ==> r == Ok(x.value.n)
  {
    match x
    case Some(JNull) => Ok(0)
    case Some(JBool(b)) => Ok(if b then 1 else 0)
    case Some(JNum(n)) =>
      if -MaxTime <= n <= MaxTime then Ok(n) else Err(NotModelled(InvalidDate))
    case Some(JStr(_)) => Err(NotModelled(DateFromText))
    case Some(JArr(items)) => if JoinItems(items).Err? then Err(TypeError) else Err(NotModelled(DateFromText))
    case Some(JObj(ms)) => if OwnsToString(ms) then Err(TypeError) else Err(NotModelled(InvalidDate))
    case None => Err(NotModelled(InvalidDate))
  }

  /** The pattern text `new RegExp(x)` compiles: "" for undefined (the empty pattern), String(x) otherwise. */
  function ToPatternText(x: Option<Json>): (r: Result<string, Error>)
    ensures x.None? ==> r == Ok("")
    ensures x.Some? && x.value.JStr? ==> r == Ok(x.value.s)
    ensures x.Some? && x.value.JObj? ==> (r.Err? <==> OwnsToString(x.value.members))
    ensures r.Err? ==> r.error == TypeError
  {
    if x.None? then Ok("") else ToJsString(x)
  }
}
