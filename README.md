# Vue timing and storage composables, modelled in Dafny

This project models three composables of a small Vue composables library:

- **use-storage.** The typed codec `stringify`/`parse` writes every
  JavaScript value as a JSON record `{"type": tag, "value": payload}`. The
  elements of an array and the fields of an object are stored as such texts
  in turn. `useStorage` builds on it: the ref starts with the parsed item
  stored under its key, or with the initial value. Every value assigned to
  it is then written back with `stringify`.
- **use-debounced.** `useDebouncedFn` returns `debounced`, `flush` and
  `cancel`. `useDebouncedRef` returns a ref with `get`, `set` and `block`.
  Each keeps a single timeout slot that is cleared and re-armed on every
  call, plus a flag that switches it off.
- **use-throttled.** `useThrottledFn` and `useThrottledRef` run or accept a
  call only when `delay` ms have passed since the last accepted one. Before
  the first call, the reference point is the creation time.

## Files and modules

- `wrappers.dfy` (`Wrappers`): `Option` and `Result`.
- `decimal.dfy` (`Decimal`): decimal digits, JavaScript white space, and
  signed and `0x`/`0o`/`0b` integer literals.
- `json.dfy` (`Json`, `JsonObject`):
  - the JSON values the storage holds;
  - the compact printer that `JSON.stringify` amounts to;
  - a reader for the text that `JSON.parse` accepts, including white space,
    escapes and surrogate pairs;
  - the reader's round trip with the printer;
  - duplicate keys: the last value wins, at the first key's position.
- `jsconvert.dfy` (`JsConvert`): the conversions `parse` applies to a
  payload. These are `Boolean()`, `String()`, `Number()`, `BigInt()`,
  `new Date()` with TimeClip, and the pattern text of `new RegExp()`.
- `codec.dfy` (`StorageCodec`): the value datatype, `Stringify`, `Parse`,
  and the round-trip and tag lemmas.
- `usestorage.dfy` (`UseStorage`):
  - the storage area, as a class over a `map<string, string>`;
  - the ref bound to a key, as a class whose assignment writes through;
  - `Open`, which is `useStorage` itself.
- `traces.dfy` (`Traces`): the record of the calls a wrapped function
  received, as arguments and time.
- `debounced.dfy` (`UseDebounced`):
  - pure step functions over a timer state, with lemmas about runs of
    events;
  - the classes `DebouncedFn` and `DebouncedRef`, whose methods are proved
    against those step functions.
- `throttled.dfy` (`UseThrottled`):
  - the functions `Executions` and `Committed`, which give the outcome of a
    sequence of attempts, with lemmas about them;
  - the classes `ThrottledFn` and `ThrottledRef`.

Time is explicit.
- **Debounced composables.** A clock moves forward by `Advance(time)`
  events. An armed timeout fires, recorded at its due time, once the clock
  reaches that time.
- **Throttled composables.** Each call takes the two `Date.now()` readings
  its body makes: `now` for the test and `after` for resetting the start
  time.

Storage I/O is the `Store` class, and the caller passes in the storage area.

What the code does at the edges:
- `flush(...args)` calls `fn` with its own arguments and drops the pending
  call.
- A throttled function created at time t drops a call made at time t when
  `delay > 0` (lemma `CreationCallDropped`): the creation time is the first
  start time, so the first call does not run at once.
- A stored item that does not parse makes `useStorage` throw; the initial
  value is used only for a missing or empty item.
- The write-through happens in a `watchEffect`. The model performs it at
  each assignment.

## Model

| member | source | states |
|---|---|---|
| StorageCodec.Stringify | packages/use-storage/lib/index.ts:3-47 | stringify succeeds exactly when no symbol or function occurs anywhere in the value (a finite tree: cyclic values are not modelled); otherwise it throws "Symbols are not supported" or "Functions are not supported" |
| StorageCodec.StringifyItems | packages/use-storage/lib/index.ts:30-32 | `value.map(stringify)` succeeds iff every element is serializable, has one JSON string per element, and element i is the JSON string of stringify of element i |
| StorageCodec.StringifyFields | packages/use-storage/lib/index.ts:39-44 | the object's entries map to (key, JSON string of stringify of the field value), one per field, in order, succeeding iff every field value is serializable |
| StorageCodec.DecodeItemsElementwise | packages/use-storage/lib/index.ts:69-71 | `item.value.map(parse)` succeeds iff every element parses, keeps the length, and element i of the result is the parse of element i |
| StorageCodec.DecodeMembersElementwise | packages/use-storage/lib/index.ts:78-85 | the decoded entries keep their keys and order, and each value is the parse of the stored text; it succeeds iff every one parses |
| StorageCodec.RecordProperties | packages/use-storage/lib/index.ts:6-44 | the record JSON.stringify writes has `type` equal to the tag and `value` equal to the payload (absent for undefined and null) |
| StorageCodec.ParseRecord | packages/use-storage/lib/index.ts:48-50 | JSON.parse reads a written record back unchanged, and parsing it is the switch on its tag applied to its payload |
| StorageCodec.RoundTripBool | packages/use-storage/lib/index.ts:5-7 | parse(stringify(b)) is b for every boolean |
| StorageCodec.RoundTripStr | packages/use-storage/lib/index.ts:8-10 | parse(stringify(s)) is s for every string, escapes included |
| StorageCodec.RoundTripNum | packages/use-storage/lib/index.ts:11-13 | parse(stringify(n)) is n for every integer number |
| StorageCodec.DecimalToBigInt | packages/use-storage/lib/index.ts:60-62 | BigInt() of the decimal text `toString` writes is the same bigint |
| StorageCodec.RoundTripBigInt | packages/use-storage/lib/index.ts:14-16 | parse(stringify(i)) is i for every bigint, negative ones included |
| StorageCodec.RoundTripUndefined | packages/use-storage/lib/index.ts:23-25 | undefined is written without a value field and read back as undefined |
| StorageCodec.RoundTripNull | packages/use-storage/lib/index.ts:27-29 | null is written without a value field and read back as null |
| StorageCodec.RoundTripDate | packages/use-storage/lib/index.ts:33-35 | a valid date (time value within ±8.64e15 ms) is read back as a date with the same time value |
| StorageCodec.RoundTripArray | packages/use-storage/lib/index.ts:30-32 | an array round-trips whenever each of its elements does |
| StorageCodec.DecodeStoredItems | packages/use-storage/lib/index.ts:69-71 | the stored element texts of such an array decode to its elements |
| StorageCodec.RoundTripObject | packages/use-storage/lib/index.ts:39-44 | an object with distinct keys round-trips whenever each field value does |
| StorageCodec.StoredEntries | packages/use-storage/lib/index.ts:41-43 | the stored entries of an object with distinct keys keep their keys, so JSON.parse keeps every entry where it is |
| StorageCodec.DecodeStoredEntries | packages/use-storage/lib/index.ts:79-84 | the stored entries of such an object decode back to its fields |
| StorageCodec.RoundTrip | packages/use-storage/lib/index.ts:3-90 | parse(stringify(v)) succeeds and is v for every storable value: nested arrays and objects, with no symbol, function or regular expression, valid dates and distinct keys |
| StorageCodec.UnknownTagRejected | packages/use-storage/lib/index.ts:86-88 | every tag outside the ten known ones is refused with "Unsupported type" |
| StorageCodec.UnknownTagParse | packages/use-storage/lib/index.ts:48-50 | a record written with an unknown tag does not parse |
| StorageCodec.KnownTagAccepted | packages/use-storage/lib/index.ts:51-77 | none of the eight known tags other than "array" and "object" is refused as an unsupported type, whatever the payload |
| StorageCodec.RegExpReadsAsText | packages/use-storage/lib/index.ts:36-38 | a regular expression is written as its `/pattern/flags` text and read back as a flagless pattern of that whole text, so it never round-trips |
| StorageCodec.MalformedRejected | packages/use-storage/lib/index.ts:48-49 | text the model's reader reports as malformed makes parse throw a SyntaxError |
| StorageCodec.NullRejected | packages/use-storage/lib/index.ts:49-50 | text that reads as null makes parse throw a TypeError when it reads `type` |
| StorageCodec.UntypedRejected | packages/use-storage/lib/index.ts:50-88 | any other JSON value whose `type` is missing or not a string is refused with "Unsupported type" |
| StorageCodec.NotJsonExample | packages/use-storage/lib/index.ts:49 | parse("not json") throws a SyntaxError |
| StorageCodec.MissingTypeExample | packages/use-storage/lib/index.ts:50-88 | a record `{"value":1}` with no type is refused with "Unsupported type" |
| StorageCodec.DecodedHasItsTag | packages/use-storage/lib/index.ts:50-89 | every value a case of the switch produces is of the kind its tag names (the tag stringify would write for it) |
| StorageCodec.ParsedHasItsTag | packages/use-storage/lib/index.ts:48-90 | a text parse accepts is a JSON object whose `type` is the tag of the value parse returns |
| StorageCodec.OnlyTextElementsDecode | packages/use-storage/lib/index.ts:69-84 | an element of a stored array or object decodes only when it is a string, and then as parse of that string |
| StorageCodec.ObjectPayloadEntries | packages/use-storage/lib/index.ts:79-84 | on an object payload, the entries decode iff the value of every entry JSON.parse kept parses, and then each key keeps its place with its parsed value |
| StorageCodec.DecodeIndexedElementwise | packages/use-storage/lib/index.ts:79-84 | `Object.entries` of an array payload gives entry i the key `i` in decimal and the parse of element i; it succeeds iff every element parses |
| StorageCodec.DecodeCharsElementwise | packages/use-storage/lib/index.ts:79-84 | `Object.entries` of a string payload gives entry i the key `i` in decimal and the parse of the one-character text at i; it succeeds iff every one parses |
| StorageCodec.OwnToStringThrows | packages/use-storage/lib/index.ts:54-77 | under the "string", "number", "bigint", "date" and "regexp" tags, a payload object with its own `toString` member makes the conversion throw a TypeError |
| StorageCodec.OwnToStringParse | packages/use-storage/lib/index.ts:48-77 | a record written with such a payload under one of those tags is refused with a TypeError |
| StorageCodec.OwnToStringExample | packages/use-storage/lib/index.ts:54-56 | `{"type":"string","value":{"toString":1}}` is refused with a TypeError |
| Json.ReadPrint | packages/use-storage/lib/index.ts:6 | JSON.parse of what JSON.stringify writes is the same JSON value |
| JsonObject.EntriesOfUniqueKeys | packages/use-storage/lib/index.ts:79-80 | an object whose keys are distinct keeps all its entries, in order, after JSON.parse |
| JsConvert.ToBoolean | packages/use-storage/lib/index.ts:51-53 | Boolean() is false for undefined and null and is the boolean itself for a boolean |
| JsConvert.JsonToString | packages/use-storage/lib/index.ts:54-56 | String() of a JSON string is that string; of an object it throws exactly when the object has its own `toString` member; it throws nothing but a TypeError |
| JsConvert.JoinItems | packages/use-storage/lib/index.ts:54-56 | joining the elements of an array throws nothing but a TypeError |
| JsConvert.ToJsString | packages/use-storage/lib/index.ts:54-56 | `String(item.value)` is "undefined" for a missing value and the string itself for a string; for an object it throws a TypeError exactly when the object has its own `toString`; the contract pins down only those cases |
| JsConvert.ToNumber | packages/use-storage/lib/index.ts:57-59 | Number() of a JSON number is that number; of an object it throws a TypeError exactly when the object has its own `toString`; otherwise it fails only with a number the model does not hold |
| JsConvert.StringToBigInt | packages/use-storage/lib/index.ts:60-62 | BigInt() of a text is 0n for a blank text, accepts the integer literals the model's Number() reads, with the same value, and throws nothing but a SyntaxError otherwise |
| JsConvert.ToBigInt | packages/use-storage/lib/index.ts:60-62 | BigInt() of undefined or null throws a TypeError; of an object, a TypeError when it has its own `toString` and a SyntaxError otherwise |
| JsConvert.ToDateTime | packages/use-storage/lib/index.ts:72-74 | `new Date(x)` keeps a number within ±8.64e15 and never yields a time outside that range; of an object it throws a TypeError exactly when the object has its own `toString` |
| JsConvert.ToPatternText | packages/use-storage/lib/index.ts:75-77 | `new RegExp(item.value)` compiles the empty pattern for a missing value and the string itself for a string; for an object it throws a TypeError exactly when the object has its own `toString`; the contract pins down only those cases |
| UseStorage.Persist | packages/use-storage/lib/index.ts:100-102 | after the write-through, the key holds stringify of the value; other keys are unchanged; a value stringify rejects leaves the storage as it was |
| UseStorage.PersistThenLoad | packages/use-storage/lib/index.ts:97-102 | a storable value written under a key is the value the next `useStorage` on that key starts with |
| UseStorage.PersistedObjectExample | packages/use-storage/lib/index.ts:97-102 | `{a: 1, b: [1, 2]}` persisted under "k" is read back as itself |
| UseStorage.LoadMalformed | packages/use-storage/lib/index.ts:99 | a non-empty stored item that is not JSON makes the load throw its SyntaxError rather than fall back to the initial value |
| UseStorage.EmptyItemLoadsInitial | packages/use-storage/lib/index.ts:99 | an empty item is falsy and gives the initial value, although parse of it would throw |
| UseStorage.PersistedRef.WriteThrough | packages/use-storage/lib/index.ts:100-102 | the effect stores stringify of the current value under the key, or leaves the storage unchanged when stringify throws |
| UseStorage.Store.GetItem | packages/use-storage/lib/index.ts:98 | `getItem` returns the item stored under the key, or null when there is none |
| UseStorage.Store.SetItem | packages/use-storage/lib/index.ts:101 | `setItem` stores the text under the key and changes nothing else |
| UseStorage.PersistedRef.Assign | packages/use-storage/lib/index.ts:100-102 | assigning the ref sets its value, and the storage becomes the write-through of that value |
| UseStorage.PersistedRef.Get | packages/use-storage/lib/index.ts:103 | reading the ref returns its value and changes nothing |
| UseStorage.Open | packages/use-storage/lib/index.ts:92-104 | a non-empty stored item is parsed; a missing or empty one gives the initial value; a parse error is thrown before anything is written; otherwise the new ref holds the loaded value and the storage holds its write-through |
| UseDebounced.ArmKeepsValid | packages/use-debounced/lib/index.ts:47-50 | clearing and re-arming the timeout keeps at most one pending call, due within one delay |
| UseDebounced.ExpireKeepsValid | packages/use-debounced/lib/index.ts:48-50 | time passing keeps the timer valid, leaves the flag alone, and a timeout that fires is the one that was pending and is gone afterwards |
| UseDebounced.ArmAt | packages/use-debounced/lib/index.ts:47-50 | a call made before the pending timeout is due replaces it with one due a delay after the call |
| UseDebounced.FnStepKeepsValid | packages/use-debounced/lib/index.ts:43-59 | every event keeps the timer valid; only `cancel` sets the flag and nothing clears it; calls of `fn` are only ever appended |
| UseDebounced.FnRunAppend | packages/use-debounced/lib/index.ts:43-59 | running two sequences of events is running the first and then the second |
| UseDebounced.FnBurst | packages/use-debounced/lib/index.ts:43-51 | during a burst of calls each closer than `delay` to the one before, `fn` is not called, and the one pending call holds the last call's arguments, due a delay after it |
| UseDebounced.FnBurstThenWait | packages/use-debounced/lib/index.ts:43-51 | after the burst, `fn` runs exactly once, with the last call's arguments, one delay after that call |
| UseDebounced.FnBurstExample | packages/use-debounced/lib/index.ts:43-51 | calls at 0, 50 and 100 with delay 200 run `fn` once, at 300, with the arguments of the call at 100 |
| UseDebounced.CancelIsFinal | packages/use-debounced/lib/index.ts:44-46 | once cancelled, nothing is ever armed again and `fn` runs only through `flush`, with each flush's arguments in order |
| UseDebounced.CancelTwice | packages/use-debounced/lib/index.ts:56-59 | cancelling again, whatever happened in between, changes nothing |
| UseDebounced.FlushDropsPending | packages/use-debounced/lib/index.ts:52-55 | `flush(args)` calls `fn` at once with its own arguments, the pending call never runs, and the cancelled flag is unchanged |
| UseDebounced.DebouncedFn.Call | packages/use-debounced/lib/index.ts:43-51 | `debounced(...args)` makes the step of a call and keeps the object valid |
| UseDebounced.DebouncedFn.Flush | packages/use-debounced/lib/index.ts:52-55 | `flush(...args)` makes the step of a flush and keeps the object valid |
| UseDebounced.DebouncedFn.Cancel | packages/use-debounced/lib/index.ts:56-59 | `cancel()` makes the step of a cancel and keeps the object valid |
| UseDebounced.DebouncedFn.Advance | packages/use-debounced/lib/index.ts:48-50 | time passing runs a due timeout's call of `fn` and keeps the object valid |
| UseDebounced.RefStepKeepsValid | packages/use-debounced/lib/index.ts:98-113 | every event keeps the timer valid; only `block` sets the flag; the value changes only when a due timeout fires, and then it triggers exactly once |
| UseDebounced.RefRunAppend | packages/use-debounced/lib/index.ts:98-113 | running two sequences of events is running the first and then the second |
| UseDebounced.RefBurst | packages/use-debounced/lib/index.ts:98-107 | during a burst of assignments, the value and the trigger count do not change, and the one pending update holds the newest value |
| UseDebounced.RefBurstThenWait | packages/use-debounced/lib/index.ts:103-106 | when its timeout fires, the ref takes the newest value of the burst and triggers once |
| UseDebounced.BlockIsFinal | packages/use-debounced/lib/index.ts:99-101 | once blocked with nothing pending, the value never changes and the ref never triggers again |
| UseDebounced.BlockFreezes | packages/use-debounced/lib/index.ts:110-113 | `block()` makes the current value final, whatever was pending and whatever follows |
| UseDebounced.DebouncedRef.Get | packages/use-debounced/lib/index.ts:94-97 | `get` returns the current value and changes nothing |
| UseDebounced.DebouncedRef.Set | packages/use-debounced/lib/index.ts:98-107 | `set` makes the step of an assignment and leaves the value and the trigger count unchanged |
| UseDebounced.DebouncedRef.Block | packages/use-debounced/lib/index.ts:110-113 | `block()` makes the step of a block and keeps the object valid |
| UseDebounced.DebouncedRef.Advance | packages/use-debounced/lib/index.ts:103-106 | time passing commits a due update, with a trigger, and keeps the object valid |
| Traces.ArgsOfAppend | packages/use-debounced/lib/index.ts:49 | the arguments of two logs of calls are those of the first followed by those of the second |
| UseThrottled.ExecutionsAfterStart | packages/use-throttled/lib/index.ts:13-19 | every run happens at least `delay` after the start time, and no earlier than the first attempt |
| UseThrottled.ExecutionsSpaced | packages/use-throttled/lib/index.ts:13-19 | with a clock that never goes back, any two consecutive runs are at least `delay` apart |
| UseThrottled.NoDelayRunsAll | packages/use-throttled/lib/index.ts:13-19 | with no delay, every call runs, with its own arguments, at its own time, in order |
| UseThrottled.CreationCallDropped | packages/use-throttled/lib/index.ts:13-15 | with a positive delay, a call made at the creation time does not run |
| UseThrottled.ExecutionsAppend | packages/use-throttled/lib/index.ts:13-19 | the runs of two series of calls are the runs of the first, then those of the second from the start time the first leaves |
| UseThrottled.LogSpaced | packages/use-throttled/lib/index.ts:13-19 | the log of a throttled function object over all its calls, with a clock that never goes back, has its runs at least `delay` apart |
| UseThrottled.ThrottledFn.Call | packages/use-throttled/lib/index.ts:14-19 | the call runs `fn` exactly when `delay` has passed since the start time, and then resets the start time to the reading taken after `fn`; its effect on the log is one step of `Executions` |
| UseThrottled.CommittedIsLastAccepted | packages/use-throttled/lib/index.ts:37-43 | the ref's value after a series of assignments is the last accepted one, or the initial value when none was accepted |
| UseThrottled.CommittedAppend | packages/use-throttled/lib/index.ts:37-43 | the value after two series of assignments is the value the second leaves, from the value and start time the first leaves |
| UseThrottled.ThrottledRef.Get | packages/use-throttled/lib/index.ts:33-36 | `get` returns the current value and changes nothing |
| UseThrottled.ThrottledRef.Set | packages/use-throttled/lib/index.ts:37-43 | an assignment is accepted exactly when `delay` has passed; it then sets the value, triggers once and resets the start time, and otherwise changes nothing; the value is one step of `Committed`, and the object keeps its value, trigger count and start time equal to those of all its assignments |

## Left out

- Numbers are integers. JavaScript floats, NaN, Infinity, -0 and the
  exponent form JSON.stringify uses from 1e21 on are not modelled. A stored
  number with a fraction or an exponent yields `NotModelled`. So does Number()
  of a text written with a fraction, an exponent or Infinity, or that gives
  NaN, even where the value is an integer (`Number("1e3")`, `Number("5.")`).
- Values are finite trees. A cyclic value, on which stringify recurses until
  it throws a RangeError, is not modelled; so Stringify's "succeeds exactly
  when no symbol or function occurs" holds for the finite values modelled.
  Sharing of a sub-value, which parse returns as separate copies, is not
  modelled either.
- RoundTripNum: holds for integer numbers only, because numbers are integers here.
- MalformedRejected: covers only text the model's reader reports as malformed. The reader stops at the first fraction, exponent or lone surrogate escape, so a text such as `[1.5` or `"\uD800\x"`, which JSON.parse refuses with a SyntaxError, yields `NotModelled` here.
- Lone surrogates in strings are not modelled. A Dafny `char` is a Unicode
  scalar value, and the reader reports an unpaired `\uD800` escape as
  `NotModelled`.
- Regular expressions are modelled as pattern and flags text. How `source`
  escapes a pattern, and the SyntaxError of `new RegExp` on an invalid
  pattern, are omitted.
- The model lists an object's fields in the order given. JavaScript's
  `Object.entries` puts integer-like keys first, in ascending order; that
  ordering is not modelled.
- A payload element that is itself an array, which `parse` would convert
  with `String()` and parse again, yields `NotModelled`.
- Dates parsed from strings and invalid dates yield `NotModelled`.
- `watchEffect` scheduling is not modelled:
  - the write-through is modelled at each assignment, not at the next flush;
  - an assignment of an equal value still writes;
  - the model has no in-place mutation of a stored object: a value changes only by assignment, so the re-run of the effect that Vue's deep reactivity makes on a nested change is not modelled;
  - Vue's handling of an error thrown inside the effect is not modelled,
    and the model leaves the storage unchanged in that case.
- A `fn` that throws inside `useThrottledFn` is not modelled. The start
  time is then never reset, so the next call runs `fn` again whatever the
  delay. `ThrottledFn.Call` and `ExecutionsSpaced` assume that `fn` returns
  and does not call the throttled function again itself.
- Sparse arrays are not modelled. `stringify([, 1])` writes the hole as
  `null`, and `parse` then throws a TypeError on it. `Value.Array` has no
  holes, so `RoundTrip` says nothing about such arrays.
- The default arguments are not modelled: `delay = 200` in the debounced and
  throttled composables and `initalValue = null` in `useStorage`. Every
  argument is passed explicitly here.
- Quota errors of `setItem` are not modelled.
- Vue's `track`/`trigger` internals: `trigger` is counted and `track` is not
  modelled.
- The `this` binding of `fn.apply(this, args)` is not modelled. The
  arguments are a single value of a type parameter.
- The TypeError that `useDebouncedFn` throws for a non-function `fn` or a
  non-number delay is not modelled: the Dafny types already rule those out.
- `useLocalStorage` and `useSessionStorage` only pass a fixed storage area to
  `useStorage`. Here the caller passes the `Store`.
- Real timers are idealised:
  - a due timeout fires exactly at its due time;
  - setTimeout's delay clamping and its overflow above 2^31-1 ms are not
    modelled;
  - the delay of the debounced composables is a `nat`, as their
    documentation requires.
- `Date.now()` readings are parameters.
- The build scripts, the vite configurations, use-media-query and
  use-mounted are not part of this model.
