/**
 * The typed value codec of the storage composable (`stringify` and `parse`
 * in packages/use-storage/lib/index.ts). A value is written as the JSON text
 * of a record `{"type": tag, "value": payload}`; the elements of an array
 * and the fields of an object are themselves stored as such texts, so the
 * payload of an array is an array of strings and that of an object an
 * object of strings.
 */
module StorageCodec {
  import opened Wrappers
  import opened Decimal
  import opened Json
  import opened JsonObject
  import opened JsConvert

  /**
   * A JavaScript value, by the branch of `typeof` and the `object` checks the
   * encoder makes. Numbers are integers. An object is given by its own
   * enumerable entries, in the order Object.entries lists them.
   */
  datatype Value =
    | Bool(b: bool)
    | Str(s: string)
    | Num(n: int)
    | BigInt(i: int)
    | Symbol
    | Function
    | Undefined
    | Null
    | Array(items: seq<Value>)
    | Date(time: int)
    | RegExp(pattern: string, flags: string)
    | Object(fields: seq<(string, Value)>)

  const SymbolsUnsupported: string := "Symbols are not supported"
  const FunctionsUnsupported: string := "Functions are not supported"
  const UnsupportedType: string := "Unsupported type"

  /** The tags `stringify` writes in the `type` field. */
  const BooleanTag: string := "boolean"
  const StringTag: string := "string"
  const NumberTag: string := "number"
  const BigIntTag: string := "bigint"
  const UndefinedTag: string := "undefined"
  const NullTag: string := "null"
  const ArrayTag: string := "array"
  const DateTag: string := "date"
  const RegExpTag: string := "regexp"
  const ObjectTag: string := "object"

  /** The tags `parse` recognises. */
  const Tags: set<string> :=
    {BooleanTag, StringTag, NumberTag, BigIntTag, UndefinedTag, NullTag, ArrayTag, DateTag, RegExpTag, ObjectTag}

  /**
   * Each tag's first letter and length, which tell any two of them apart.
   * This states nothing about the program: it is a step that spares the
   * solver comparing the tag strings letter by letter.
   */
  lemma TagLetters()
    ensures BooleanTag[0] == 'b' && |BooleanTag| == 7
    ensures StringTag[0] == 's' && NumberTag[0] == 'n' && |NumberTag| == 6
    ensures BigIntTag[0] == 'b' && |BigIntTag| == 6
    ensures UndefinedTag[0] == 'u' && NullTag[0] == 'n' && |NullTag| == 4
    ensures ArrayTag[0] == 'a' && DateTag[0] == 'd' && RegExpTag[0] == 'r' && ObjectTag[0] == 'o'
  {
  }

  /** The record `{type: tag}` or `{type: tag, value: payload}` that JSON.stringify writes. */
  function Record(tag: string, payload: Option<Json>): Json {
    match payload
    case None => JObj([("type", JStr(tag))])
    case Some(p) => JObj([("type", JStr(tag)), ("value", p)])
  }

  /** `value.toString()` of a RegExp: its pattern between slashes, then its flags. */
  function RegExpText(pattern: string, flags: string): string {
    "/" + pattern + "/" + flags
  }

  // ---------------------------------------------------------------------------
  // stringify
  // ---------------------------------------------------------------------------

  /** Holds of a value `stringify` accepts: no symbol and no function anywhere inside it. */
  predicate Serializable(v: Value) {
    match v
    case Symbol => false
    case Function => false
    case Array(items) => forall i :: 0 <= i < |items| ==> Serializable(items[i])
    case Object(fields) => forall i :: 0 <= i < |fields| ==> SerializableField(fields[i])
    case _ => true
  }

  predicate SerializableField(f: (string, Value)) {
    Serializable(f.1)
  }

  /** The two errors `stringify` throws. */
  predicate StringifyError(e: Error) {
    e == Thrown(SymbolsUnsupported) || e == Thrown(FunctionsUnsupported)
  }

  function Stringify(v: Value): (r: Result<string, Error>)
    ensures r.Ok? <==> Serializable(v)
    ensures r.Err? ==> StringifyError(r.error)
    ensures r.Ok? ==> r.value != []
  {
    match v
    case Bool(b) => Ok(Print(Record(BooleanTag, Some(JBool(b)))))
    case Str(s) => Ok(Print(Record(StringTag, Some(JStr(s)))))
    case Num(n) => Ok(Print(Record(NumberTag, Some(JNum(n)))))
    case BigInt(i) => Ok(Print(Record(BigIntTag, Some(JStr(IntToDecimal(i))))))
    case Symbol => Err(Thrown(SymbolsUnsupported))
    case Function => Err(Thrown(FunctionsUnsupported))
    case Undefined => Ok(Print(Record(UndefinedTag, None)))
    case Null => Ok(Print(Record(NullTag, None)))
    case Array(items) =>
      var texts :- StringifyItems(items);
      Ok(Print(Record(ArrayTag, Some(JArr(texts)))))
    case Date(time) => Ok(Print(Record(DateTag, Some(JNum(time)))))
    case RegExp(pattern, flags) => Ok(Print(Record(RegExpTag, Some(JStr(RegExpText(pattern, flags))))))
    case Object(fields) =>
      var entries :- StringifyFields(fields);
      Ok(Print(Record(ObjectTag, Some(JObj(entries)))))
  }

  /**
   * `value.map(stringify)`: the text of each element, in order, as a JSON
   * string; the first failure is thrown.
   */
  function StringifyItems(items: seq<Value>): (r: Result<seq<Json>, Error>)
    ensures r.Ok? <==> forall i :: 0 <= i < |items| ==> Serializable(items[i])
    ensures r.Err? ==> StringifyError(r.error)
    ensures r.Ok? ==> |r.value| == |items|
    ensures r.Ok? ==> forall i :: 0 <= i < |items| ==>
      Stringify(items[i]).Ok? && r.value[i] == JStr(Stringify(items[i]).value)
  {
    if items == [] then Ok([])
    else
      var first :- Stringify(items[0]);
      var others :- StringifyItems(items[1..]);
      assert forall i :: 1 <= i < |items| ==> items[i] == items[1..][i - 1];
      Ok([JStr(first)] + others)
  }

  function StringifyField(f: (string, Value)): (r: Result<(string, Json), Error>)
    ensures r.Ok? <==> SerializableField(f)
    ensures r.Err? ==> StringifyError(r.error)
    ensures r.Ok? ==> r.value == (f.0, JStr(Stringify(f.1).value))
  {
    var text :- Stringify(f.1);
    Ok((f.0, JStr(text)))
  }

  /**
   * `Object.entries(value).map(([key, value]) => [key, stringify(value)])`:
   * every key in its place, with the text of its value as a JSON string.
   */
  function StringifyFields(fields: seq<(string, Value)>): (r: Result<seq<(string, Json)>, Error>)
    ensures r.Ok? <==> forall i :: 0 <= i < |fields| ==> SerializableField(fields[i])
    ensures r.Err? ==> StringifyError(r.error)
    ensures r.Ok? ==> |r.value| == |fields|
    ensures r.Ok? ==> forall i :: 0 <= i < |fields| ==>
      StringifyField(fields[i]).Ok? && r.value[i] == StringifyField(fields[i]).value
  {
    if fields == [] then Ok([])
    else
      var first :- StringifyField(fields[0]);
      var others :- StringifyFields(fields[1..]);
      assert forall i :: 1 <= i < |fields| ==> fields[i] == fields[1..][i - 1];
      Ok([first] + others)
  }

  // ---------------------------------------------------------------------------
  // parse
  // ---------------------------------------------------------------------------

  function ReadFailure(e: ReadError): Error {
    match e
    case Malformed => SyntaxError
    case NonInteger => NotModelled(FractionOrExponent)
    case LoneSurrogate => NotModelled(UnpairedSurrogate)
  }

  /** `item.type` or `item.value` of a parsed JSON value that is not null. */
  function Property(item: Json, key: string): (r: Option<Json>)
    ensures r.Some? ==> MaxStr(r.value) <= MaxStr(item)
  {
    match item
    case JObj(ms) => Lookup(ms, key)
    case _ => None
  }

  function Parse(text: string): Result<Value, Error>
    decreases |text|, 5, 0
  {
    match Read(text)
    case Err(e) => Err(ReadFailure(e))
    case Ok(item) => Decode(item, |text|)
  }

  /** `item.type` read from the parsed JSON value; `bound` exceeds every string inside `item`. */
  function Decode(item: Json, ghost bound: nat): Result<Value, Error>
    requires MaxStr(item) < bound
    decreases bound, 4, 1
  {
    if item.JNull? then Err(TypeError)
    else
      match Property(item, "type")
      case Some(JStr(tag)) => DecodeTagged(tag, Property(item, "value"), bound)
      case _ => Err(Thrown(UnsupportedType))
  }

  /** The switch on the tag, with `payload` the `value` property. */
  function DecodeTagged(tag: string, payload: Option<Json>, ghost bound: nat): Result<Value, Error>
    requires payload.Some? ==> MaxStr(payload.value) < bound
    decreases bound, 4, 0
  {
    if tag == BooleanTag then Ok(Bool(ToBoolean(payload)))
    else if tag == StringTag then
      var s :- ToJsString(payload);
      Ok(Str(s))
    else if tag == NumberTag then
      var n :- ToNumber(payload);
      Ok(Num(n))
    else if tag == BigIntTag then
      var i :- ToBigInt(payload);
      Ok(BigInt(i))
    else if tag == UndefinedTag then Ok(Undefined)
    else if tag == NullTag then Ok(Null)
    else if tag == ArrayTag then
      match payload
      case Some(JArr(xs)) =>
        var vs :- DecodeItems(xs, bound);
        Ok(Array(vs))
      case _ => Err(TypeError)
    else if tag == DateTag then
      var time :- ToDateTime(payload);
      Ok(Date(time))
    else if tag == RegExpTag then
      var pattern :- ToPatternText(payload);
      Ok(RegExp(pattern, ""))
    else if tag == ObjectTag then
      var fields :- DecodeEntries(payload, bound);
      Ok(Object(fields))
    else Err(Thrown(UnsupportedType))
  }

  /**
   * `parse` applied to an element of the payload. A string is parsed as a
   * text; any other value is first converted with String() and the result
   * handed to JSON.parse, whose outcome is given here directly.
   */
  function DecodeElement(j: Json, ghost bound: nat): Result<Value, Error>
    requires MaxStr(j) < bound
    decreases bound, 1, 0
  {
    match j
    case JStr(s) => Parse(s)
    case JNull => Err(TypeError)               // JSON.parse("null") is null: reading its type throws
    case JBool(_) => Err(Thrown(UnsupportedType))  // a boolean has no type property
    case JNum(_) => Err(Thrown(UnsupportedType))   // a number has no type property
    case JObj(ms) => if OwnsToString(ms) then Err(TypeError) else Err(SyntaxError)  // "[object Object]" is not JSON
    case JArr(xs) => if JoinItems(xs).Err? then Err(TypeError) else Err(NotModelled(NestedArray))
  }

  /** `item.value.map(parse)`. */
  function DecodeItems(xs: seq<Json>, ghost bound: nat): Result<seq<Value>, Error>
    requires MaxStrItems(xs) < bound
    decreases bound, 2, |xs|
  {
    if xs == [] then Ok([])
    else
      var first :- DecodeElement(xs[0], bound);
      var others :- DecodeItems(xs[1..], bound);
      Ok([first] + others)
  }

  /** Entries `(key, parse(value))` of the members of a parsed object. */
  function DecodeMembers(ms: seq<(string, Json)>, ghost bound: nat): Result<seq<(string, Value)>, Error>
    requires MaxStrMembers(ms) < bound
    decreases bound, 2, |ms|
  {
    if ms == [] then Ok([])
    else
      var first :- DecodeElement(ms[0].1, bound);
      var others :- DecodeMembers(ms[1..], bound);
      Ok([(ms[0].0, first)] + others)
  }

  /** Entries `(index, parse(value))` of an array, whose own keys are its indices. */
  function DecodeIndexed(xs: seq<Json>, start: nat, ghost bound: nat): (r: Result<seq<(string, Value)>, Error>)
    requires MaxStrItems(xs) < bound
    decreases bound, 2, |xs|
  {
    if xs == [] then Ok([])
    else
      var first :- DecodeElement(xs[0], bound);
      var others :- DecodeIndexed(xs[1..], start + 1, bound);
      Ok([(NatToDigits(start), first)] + others)
  }

  /** Entries `(index, parse(character))` of a string, whose own keys are its indices. */
  function DecodeChars(s: string, start: nat, ghost bound: nat): (r: Result<seq<(string, Value)>, Error>)
    requires |s| < bound
    decreases bound, 2, |s|
  {
    if s == [] then Ok([])
    else
      var first :- Parse([s[0]]);
      var others :- DecodeChars(s[1..], start + 1, bound);
      Ok([(NatToDigits(start), first)] + others)
  }

  /** `Object.entries(item.value).map(([key, value]) => [key, parse(value)])`. */
  function DecodeEntries(payload: Option<Json>, ghost bound: nat): Result<seq<(string, Value)>, Error>
    requires payload.Some? ==> MaxStr(payload.value) < bound
    decreases bound, 3, 0
  {
    match payload
    case None => Err(TypeError)                // Object.entries(undefined)
    case Some(JNull) => Err(TypeError)         // Object.entries(null)
    case Some(JBool(_)) => Ok([])
    case Some(JNum(_)) => Ok([])
    case Some(JStr(s)) => DecodeChars(s, 0, bound)
    case Some(JArr(xs)) => DecodeIndexed(xs, 0, bound)
    case Some(JObj(ms)) => DecodeMembers(Entries(ms), bound)
  }

  // ---------------------------------------------------------------------------
  // Properties
  // ---------------------------------------------------------------------------

  /** No two fields of an object share a key, as with the own keys of a JavaScript object. */
  predicate UniqueFieldKeys(fields: seq<(string, Value)>) {
    forall i, j :: 0 <= i < j < |fields| ==> fields[i].0 != fields[j].0
  }

  /**
   * The values the codec is meant to store: no symbol, function or regular
   * expression anywhere inside, every date valid and every object's keys
   * distinct.
   */
  predicate Storable(v: Value) {
    match v
    case Symbol => false
    case Function => false
    case RegExp(_, _) => false
    case Date(time) => -MaxTime <= time <= MaxTime
    case Array(items) => forall i :: 0 <= i < |items| ==> Storable(items[i])
    case Object(fields) => UniqueFieldKeys(fields) && forall i :: 0 <= i < |fields| ==> StorableField(fields[i])
    case _ => true
  }

  predicate StorableField(f: (string, Value)) {
    Storable(f.1)
  }

  /** `parse(stringify(v))` succeeds and gives `v` back. */
  predicate RoundTrips(v: Value) {
    Stringify(v).Ok? && Parse(Stringify(v).value) == Ok(v)
  }

  lemma RecordProperties(tag: string, payload: Option<Json>)
    ensures Property(Record(tag, payload), "type") == Some(JStr(tag))
    ensures Property(Record(tag, payload), "value") == payload
  {
    var ms := Record(tag, payload).members;
    if payload.Some? {
      assert ms[1..] == [("value", payload.value)];
      assert Lookup(ms[1..], "value") == payload;
    }
  }

  /** Parsing a written record is the switch on its tag, applied to its payload. */
  lemma ParseRecord(tag: string, payload: Option<Json>)
    ensures Read(Print(Record(tag, payload))) == Ok(Record(tag, payload))
    ensures payload.Some? ==> MaxStr(payload.value) < |Print(Record(tag, payload))|
    ensures Parse(Print(Record(tag, payload))) == DecodeTagged(tag, payload, |Print(Record(tag, payload))|)
  {
    ReadPrint(Record(tag, payload));
    RecordProperties(tag, payload);
  }

  lemma RoundTripBool(b: bool)
    ensures RoundTrips(Bool(b))
  {
    TagLetters();
    ParseRecord(BooleanTag, Some(JBool(b)));
  }

  lemma RoundTripStr(s: string)
    ensures RoundTrips(Str(s))
  {
    TagLetters();
    ParseRecord(StringTag, Some(JStr(s)));
  }

  lemma RoundTripNum(n: int)
    ensures RoundTrips(Num(n))
  {
    TagLetters();
    ParseRecord(NumberTag, Some(JNum(n)));
  }

  /** BigInt of the decimal text `toString` writes is the same bigint. */
  lemma DecimalToBigInt(i: int)
    ensures StringToBigInt(IntToDecimal(i)) == Ok(i)
  {
    var s := IntToDecimal(i);
    var ds := if i < 0 then NatToDigits(-i) else NatToDigits(i);
    assert s[|s| - 1] == ds[|ds| - 1];
    assert Trim(s) == s;
    IntToDecimalRoundTrip(i);
  }

  lemma RoundTripBigInt(i: int)
    ensures RoundTrips(BigInt(i))
  {
    TagLetters();
    ParseRecord(BigIntTag, Some(JStr(IntToDecimal(i))));
    DecimalToBigInt(i);
  }

  lemma RoundTripUndefined()
    ensures RoundTrips(Undefined)
  {
    TagLetters();
    ParseRecord(UndefinedTag, None);
  }

  lemma RoundTripNull()
    ensures RoundTrips(Null)
  {
    TagLetters();
    ParseRecord(NullTag, None);
  }

  /** A valid date is written as its time value and read back as a date with that time value. */
  lemma RoundTripDate(time: int)
    requires -MaxTime <= time <= MaxTime
    ensures RoundTrips(Date(time))
  {
    TagLetters();
    ParseRecord(DateTag, Some(JNum(time)));
  }

  /** `map(parse)` succeeds exactly when every element parses, and then gives the parse of each element, in order. */
  lemma {:induction false} DecodeItemsElementwise(xs: seq<Json>, bound: nat)
    requires MaxStrItems(xs) < bound
    ensures var r := DecodeItems(xs, bound);
      (r.Ok? <==> forall i :: 0 <= i < |xs| ==> DecodeElement(xs[i], bound).Ok?)
      && (r.Ok? ==> |r.value| == |xs| && forall i :: 0 <= i < |xs| ==> DecodeElement(xs[i], bound) == Ok(r.value[i]))
    decreases |xs|
  {
    if xs != [] {
      DecodeItemsElementwise(xs[1..], bound);
      assert forall i :: 1 <= i < |xs| ==> xs[i] == xs[1..][i - 1];
    }
  }

  /** The same for the members of an object, whose keys are kept. */
  lemma {:induction false} DecodeMembersElementwise(ms: seq<(string, Json)>, bound: nat)
    requires MaxStrMembers(ms) < bound
    ensures var r := DecodeMembers(ms, bound);
      (r.Ok? <==> forall i :: 0 <= i < |ms| ==> DecodeElement(ms[i].1, bound).Ok?)
      && (r.Ok? ==> |r.value| == |ms| && forall i :: 0 <= i < |ms| ==>
            r.value[i].0 == ms[i].0 && DecodeElement(ms[i].1, bound) == Ok(r.value[i].1))
    decreases |ms|
  {
    if ms != [] {
      DecodeMembersElementwise(ms[1..], bound);
      assert forall i :: 1 <= i < |ms| ==> ms[i] == ms[1..][i - 1];
    }
  }

  /** The entries of a list with an own key per index, from `start` on: key `start + i` in decimal, value i. */
  function Numbered<V>(vs: seq<V>, start: nat): (r: seq<(string, V)>)
    ensures |r| == |vs|
    ensures forall i :: 0 <= i < |vs| ==> r[i] == (NatToDigits(start + i), vs[i])
  {
    if vs == [] then [] else [(NatToDigits(start), vs[0])] + Numbered(vs[1..], start + 1)
  }

  /** Decoding the entries of an array payload is `map(parse)` of its elements, numbered by index. */
  lemma {:induction false} DecodeIndexedNumbered(xs: seq<Json>, start: nat, bound: nat)
    requires MaxStrItems(xs) < bound
    ensures DecodeIndexed(xs, start, bound) ==
      match DecodeItems(xs, bound)
      case Ok(vs) => Ok(Numbered(vs, start))
      case Err(e) => Err(e)
    decreases |xs|
  {
    if xs != [] {
      DecodeIndexedNumbered(xs[1..], start + 1, bound);
    }
  }

  /** `Object.entries` of an array payload: entry i has key `i` in decimal and the parse of element i; it succeeds iff every element parses. */
  lemma DecodeIndexedElementwise(xs: seq<Json>, start: nat, bound: nat)
    requires MaxStrItems(xs) < bound
    ensures var r := DecodeIndexed(xs, start, bound);
      (r.Ok? <==> forall i :: 0 <= i < |xs| ==> DecodeElement(xs[i], bound).Ok?)
      && (r.Ok? ==> |r.value| == |xs| && forall i :: 0 <= i < |xs| ==>
            r.value[i].0 == NatToDigits(start + i) && DecodeElement(xs[i], bound) == Ok(r.value[i].1))
  {
    DecodeIndexedNumbered(xs, start, bound);
    DecodeItemsElementwise(xs, bound);
  }

  /** The one-character texts of a string, as JSON strings. */
  function CharTexts(s: string): (r: seq<Json>)
    ensures |r| == |s| && MaxStrItems(r) <= 1
    ensures forall i :: 0 <= i < |s| ==> r[i] == JStr([s[i]])
  {
    if s == [] then [] else [JStr([s[0]])] + CharTexts(s[1..])
  }

  /** Decoding the entries of a string payload is `map(parse)` of its one-character texts, numbered by index. */
  lemma {:induction false} DecodeCharsNumbered(s: string, start: nat, bound: nat)
    requires |s| < bound
    ensures DecodeChars(s, start, bound) ==
      match DecodeItems(CharTexts(s), bound)
      case Ok(vs) => Ok(Numbered(vs, start))
      case Err(e) => Err(e)
    decreases |s|
  {
    if s != [] {
      DecodeCharsNumbered(s[1..], start + 1, bound);
      assert CharTexts(s)[1..] == CharTexts(s[1..]);
    }
  }

  /** `Object.entries` of a string payload: entry i has key `i` in decimal and the parse of the one-character text at i. */
  lemma DecodeCharsElementwise(s: string, start: nat, bound: nat)
    requires |s| < bound
    ensures var r := DecodeChars(s, start, bound);
      (r.Ok? <==> forall i :: 0 <= i < |s| ==> Parse([s[i]]).Ok?)
      && (r.Ok? ==> |r.value| == |s| && forall i :: 0 <= i < |s| ==>
            r.value[i].0 == NatToDigits(start + i) && Parse([s[i]]) == Ok(r.value[i].1))
  {
    DecodeCharsNumbered(s, start, bound);
    DecodeItemsElementwise(CharTexts(s), bound);
  }

  lemma DecodeArrayTag(xs: seq<Json>, bound: nat)
    requires MaxStrItems(xs) < bound
    ensures DecodeTagged(ArrayTag, Some(JArr(xs)), bound) == (var vs :- DecodeItems(xs, bound); Ok(Array(vs)))
  {
    TagLetters();
  }

  lemma DecodeObjectTag(ms: seq<(string, Json)>, bound: nat)
    requires MaxStrMembers(ms) < bound
    ensures DecodeTagged(ObjectTag, Some(JObj(ms)), bound) == (var fs :- DecodeMembers(Entries(ms), bound); Ok(Object(fs)))
  {
    TagLetters();
  }

  lemma DecodeObjectTagOk(ms: seq<(string, Json)>, fields: seq<(string, Value)>, bound: nat)
    requires MaxStrMembers(ms) < bound
    requires DecodeMembers(Entries(ms), bound) == Ok(fields)
    ensures DecodeTagged(ObjectTag, Some(JObj(ms)), bound) == Ok(Object(fields))
  {
    DecodeObjectTag(ms, bound);
  }

  /** An array round-trips whenever each of its elements does. */
  lemma RoundTripArray(items: seq<Value>)
    requires forall i :: 0 <= i < |items| ==> RoundTrips(items[i])
    ensures RoundTrips(Array(items))
  {
    var texts := StringifyItems(items).value;
    var payload := Some(JArr(texts));
    assert Stringify(Array(items)) == Ok(Print(Record(ArrayTag, payload)));
    var bound := |Print(Record(ArrayTag, payload))|;
    ParseRecord(ArrayTag, payload);
    DecodeArray(items, texts, bound);
    RoundTripsVia(Array(items), ArrayTag, payload);
  }

  /** A value round-trips when it is written as a record whose tag and payload decode back to it. */
  lemma RoundTripsVia(v: Value, tag: string, payload: Option<Json>)
    requires Stringify(v) == Ok(Print(Record(tag, payload)))
    requires payload.Some? ==> MaxStr(payload.value) < |Print(Record(tag, payload))|
    requires DecodeTagged(tag, payload, |Print(Record(tag, payload))|) == Ok(v)
    ensures RoundTrips(v)
  {
    ParseRecord(tag, payload);
  }

  lemma DecodeArray(items: seq<Value>, texts: seq<Json>, bound: nat)
    requires forall i :: 0 <= i < |items| ==> RoundTrips(items[i])
    requires StringifyItems(items) == Ok(texts)
    requires MaxStr(JArr(texts)) < bound
    ensures DecodeTagged(ArrayTag, Some(JArr(texts)), bound) == Ok(Array(items))
  {
    DecodeArrayTag(texts, bound);
    DecodeStoredItems(items, texts, bound);
  }

  lemma DecodeStoredItems(items: seq<Value>, texts: seq<Json>, bound: nat)
    requires forall i :: 0 <= i < |items| ==> RoundTrips(items[i])
    requires StringifyItems(items) == Ok(texts)
    requires MaxStrItems(texts) < bound
    ensures DecodeItems(texts, bound) == Ok(items)
  {
    var r := DecodeItems(texts, bound);
    DecodeItemsElementwise(texts, bound);
    assert forall i :: 0 <= i < |texts| ==> DecodeElement(texts[i], bound) == Ok(items[i]);
    assert r.value == items;
  }

  /** An object with distinct keys round-trips whenever the value of each of its fields does. */
  lemma RoundTripObject(fields: seq<(string, Value)>)
    requires UniqueFieldKeys(fields)
    requires forall i :: 0 <= i < |fields| ==> RoundTrips(fields[i].1)
    ensures RoundTrips(Object(fields))
  {
    var entries := StoredEntries(fields);
    var payload := Some(JObj(entries));
    assert Stringify(Object(fields)) == Ok(Print(Record(ObjectTag, payload)));
    var bound := |Print(Record(ObjectTag, payload))|;
    ParseRecord(ObjectTag, payload);
    DecodeStoredEntries(fields, entries, bound);
    DecodeObjectTagOk(entries, fields, bound);
    RoundTripsVia(Object(fields), ObjectTag, payload);
  }

  /** The stored entries of such an object have its keys, so JSON.parse keeps them as they are. */
  lemma StoredEntries(fields: seq<(string, Value)>) returns (entries: seq<(string, Json)>)
    requires UniqueFieldKeys(fields)
    requires forall i :: 0 <= i < |fields| ==> RoundTrips(fields[i].1)
    ensures StringifyFields(fields) == Ok(entries)
    ensures Entries(entries) == entries
  {
    assert forall i :: 0 <= i < |fields| ==> SerializableField(fields[i]);
    entries := StringifyFields(fields).value;
    assert forall i :: 0 <= i < |fields| ==> entries[i].0 == fields[i].0;
    EntriesOfUniqueKeys(entries);
  }

  lemma DecodeStoredEntries(fields: seq<(string, Value)>, entries: seq<(string, Json)>, bound: nat)
    requires forall i :: 0 <= i < |fields| ==> RoundTrips(fields[i].1)
    requires StringifyFields(fields) == Ok(entries)
    requires MaxStrMembers(entries) < bound
    ensures DecodeMembers(entries, bound) == Ok(fields)
  {
    StoredValuesDecode(fields, entries, bound);
    var r := DecodeMembers(entries, bound);
    DecodeMembersElementwise(entries, bound);
    SamePairs(r.value, fields);
  }

  /** The value of each stored entry decodes to the value of the field it was written from. */
  lemma StoredValuesDecode(fields: seq<(string, Value)>, entries: seq<(string, Json)>, bound: nat)
    requires forall i :: 0 <= i < |fields| ==> RoundTrips(fields[i].1)
    requires StringifyFields(fields) == Ok(entries)
    requires MaxStrMembers(entries) < bound
    ensures |entries| == |fields|
    ensures forall i :: 0 <= i < |entries| ==> entries[i].0 == fields[i].0
    ensures forall i :: 0 <= i < |entries| ==> DecodeElement(entries[i].1, bound) == Ok(fields[i].1)
  {
    forall i | 0 <= i < |entries|
      ensures entries[i].0 == fields[i].0 && DecodeElement(entries[i].1, bound) == Ok(fields[i].1)
    {
      assert entries[i] == (fields[i].0, JStr(Stringify(fields[i].1).value));
    }
  }

  lemma SamePairs<X, Y>(a: seq<(X, Y)>, b: seq<(X, Y)>)
    requires |a| == |b|
    requires forall i :: 0 <= i < |a| ==> a[i].0 == b[i].0 && a[i].1 == b[i].1
    ensures a == b
  {
  }

  /** `parse(stringify(v)) == v` for every storable value. */
  lemma {:induction false} RoundTrip(v: Value)
    requires Storable(v)
    ensures RoundTrips(v)
    decreases v, 1
  {
    match v
    case Bool(b) => RoundTripBool(b);
    case Str(s) => RoundTripStr(s);
    case Num(n) => RoundTripNum(n);
    case BigInt(i) => RoundTripBigInt(i);
    case Undefined => RoundTripUndefined();
    case Null => RoundTripNull();
    case Date(time) => RoundTripDate(time);
    case Array(items) =>
      forall i | 0 <= i < |items| ensures RoundTrips(items[i]) {
        RoundTrip(items[i]);
      }
      RoundTripArray(items);
    case Object(fields) =>
      forall i | 0 <= i < |fields| ensures RoundTrips(fields[i].1) {
        RoundTripField(fields[i]);
      }
      RoundTripObject(fields);
  }

  lemma {:induction false} RoundTripField(f: (string, Value))
    requires StorableField(f)
    ensures RoundTrips(f.1)
    decreases f, 0
  {
    RoundTrip(f.1);
  }

  /** `parse` throws "Unsupported type" for every object whose `type` is not one of the known tags. */
  lemma UnknownTagRejected(tag: string, payload: Option<Json>, bound: nat)
    requires payload.Some? ==> MaxStr(payload.value) < bound
    requires tag !in Tags
    ensures DecodeTagged(tag, payload, bound) == Err(Thrown(UnsupportedType))
  {
  }

  /** In particular a record written with an unknown tag does not parse. */
  lemma UnknownTagParse(tag: string, payload: Option<Json>)
    requires tag !in Tags
    ensures Parse(Print(Record(tag, payload))) == Err(Thrown(UnsupportedType))
  {
    ParseRecord(tag, payload);
  }

  /** A known tag other than "array" and "object" is never refused as an unsupported type. */
  lemma KnownTagAccepted(tag: string, payload: Option<Json>, bound: nat)
    requires payload.Some? ==> MaxStr(payload.value) < bound
    requires tag in Tags - {ArrayTag, ObjectTag}
    ensures DecodeTagged(tag, payload, bound) != Err(Thrown(UnsupportedType))
  {
    if tag == BigIntTag {
      assert ToBigInt(payload).Err? ==> ToBigInt(payload).error != Thrown(UnsupportedType);
    }
  }

  /** Text that JSON.parse refuses makes `parse` throw a SyntaxError. */
  lemma MalformedRejected(text: string)
    requires Read(text) == Err(Malformed)
    ensures Parse(text) == Err(SyntaxError)
  {
  }

  /** Text that JSON.parse reads as null makes `parse` throw a TypeError, since `type` is read off null. */
  lemma NullRejected(text: string)
    requires Read(text) == Ok(JNull)
    ensures Parse(text) == Err(TypeError)
  {
  }

  /**
   * Any other JSON value whose `type` property is missing or is not a string
   * matches no case of the switch and is refused as an unsupported type.
   */
  lemma UntypedRejected(text: string)
    requires Read(text).Ok? && Read(text).value != JNull
    requires Property(Read(text).value, "type").None? || !Property(Read(text).value, "type").value.JStr?
    ensures Parse(text) == Err(Thrown(UnsupportedType))
  {
  }

  /** "not json" is refused with a SyntaxError. */
  lemma NotJsonExample()
    ensures Parse("not json") == Err(SyntaxError)
  {
    assert Read("not json") == Err(Malformed);
  }

  /** A record written with a `value` but no `type` is refused as an unsupported type. */
  lemma MissingTypeExample()
    ensures Parse(Print(JObj([("value", JNum(1))]))) == Err(Thrown(UnsupportedType))
  {
    var j := JObj([("value", JNum(1))]);
    ReadPrint(j);
    assert Lookup(j.members, "type") == None;
  }

  /** The tags whose case converts the payload with String(), Number(), BigInt(), `new Date()` or `new RegExp()`. */
  const ConvertingTags: set<string> := {StringTag, NumberTag, BigIntTag, DateTag, RegExpTag}

  /**
   * A payload object with its own `toString` member makes each of those
   * conversions throw a TypeError.
   */
  lemma OwnToStringThrows(tag: string, ms: seq<(string, Json)>, bound: nat)
    requires tag in ConvertingTags && OwnsToString(ms)
    requires MaxStr(JObj(ms)) < bound
    ensures DecodeTagged(tag, Some(JObj(ms)), bound) == Err(TypeError)
  {
    TagLetters();
  }

  /** So a record written with such a payload under one of those tags is refused with that TypeError. */
  lemma OwnToStringParse(tag: string, ms: seq<(string, Json)>)
    requires tag in ConvertingTags && OwnsToString(ms)
    ensures Parse(Print(Record(tag, Some(JObj(ms))))) == Err(TypeError)
  {
    ParseRecord(tag, Some(JObj(ms)));
    OwnToStringThrows(tag, ms, |Print(Record(tag, Some(JObj(ms))))|);
  }

  /** `{"type":"string","value":{"toString":1}}` is refused with a TypeError. */
  lemma OwnToStringExample()
    ensures Parse(Print(Record(StringTag, Some(JObj([("toString", JNum(1))]))))) == Err(TypeError)
  {
    assert OwnsToString([("toString", JNum(1))]);
    OwnToStringParse(StringTag, [("toString", JNum(1))]);
  }

  /** The tag `stringify` writes for a value: its `typeof`, refined by the `null`, array, Date and RegExp checks. */
  function TagOf(v: Value): string {
    match v
    case Bool(_) => BooleanTag
    case Str(_) => StringTag
    case Num(_) => NumberTag
    case BigInt(_) => BigIntTag
    case Symbol => "symbol"
    case Function => "function"
    case Undefined => UndefinedTag
    case Null => NullTag
    case Array(_) => ArrayTag
    case Date(_) => DateTag
    case RegExp(_, _) => RegExpTag
    case Object(_) => ObjectTag
  }

  /** Whatever the payload, a value the switch produces is of the kind its tag names; so is every value `parse` returns. */
  lemma DecodedHasItsTag(tag: string, payload: Option<Json>, bound: nat)
    requires payload.Some? ==> MaxStr(payload.value) < bound
    ensures DecodeTagged(tag, payload, bound).Ok? ==> TagOf(DecodeTagged(tag, payload, bound).value) == tag
  {
  }

  /** Every value `parse` returns carries the tag of the record it was read from. */
  lemma ParsedHasItsTag(text: string)
    requires Parse(text).Ok?
    ensures Read(text).Ok? && Read(text).value.JObj?
    ensures Property(Read(text).value, "type") == Some(JStr(TagOf(Parse(text).value)))
  {
    var item := Read(text).value;
    match Property(item, "type")
    case Some(JStr(tag)) =>
      DecodedHasItsTag(tag, Property(item, "value"), |text|);
    case _ =>
  }

  /** An element of a payload decodes only when it is a string, and then as `parse` of that string. */
  lemma OnlyTextElementsDecode(j: Json, bound: nat)
    requires MaxStr(j) < bound
    ensures DecodeElement(j, bound).Ok? ==> j.JStr? && DecodeElement(j, bound) == Parse(j.s)
  {
  }

  /**
   * The "object" branch on an object payload: it succeeds iff the value of
   * every entry JSON.parse kept decodes, and then keeps each entry's key, in
   * order, with its decoded value.
   */
  lemma ObjectPayloadEntries(ms: seq<(string, Json)>, bound: nat) returns (es: seq<(string, Json)>)
    requires MaxStr(JObj(ms)) < bound
    ensures es == Entries(ms) && MaxStrMembers(es) < bound
    ensures var r := DecodeEntries(Some(JObj(ms)), bound);
      (r.Ok? <==> forall i :: 0 <= i < |es| ==> DecodeElement(es[i].1, bound).Ok?)
      && (r.Ok? ==> |r.value| == |es| && forall i :: 0 <= i < |es| ==>
            r.value[i].0 == es[i].0 && DecodeElement(es[i].1, bound) == Ok(r.value[i].1))
  {
    es := Entries(ms);
    DecodeMembersElementwise(es, bound);
  }

  /**
   * A regular expression is stored as its `toString` text and read back as a
   * pattern made of that whole text with no flags, so it is never the value
   * that was stored.
   */
  lemma RegExpReadsAsText(pattern: string, flags: string)
    ensures Stringify(RegExp(pattern, flags)).Ok?
    ensures Parse(Stringify(RegExp(pattern, flags)).value) == Ok(RegExp(RegExpText(pattern, flags), ""))
    ensures !RoundTrips(RegExp(pattern, flags))
  {
    var source := RegExpText(pattern, flags);
    var text := Print(Record(RegExpTag, Some(JStr(source))));
    assert Stringify(RegExp(pattern, flags)) == Ok(text);
    ParseRecord(RegExpTag, Some(JStr(source)));
    assert |source| != |pattern|;
  }
}
