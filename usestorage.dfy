/**
 * The storage composable `useStorage` (packages/use-storage/lib/index.ts): a
 * ref whose value is read from a Web Storage area when it is created and
 * written back there, with `stringify`, whenever it changes.
 */
module UseStorage {
  import opened Wrappers
  import opened JsConvert
  import opened StorageCodec
  import opened Json

  /**
   * The value `useStorage` starts with, given the item stored under its key:
   * the parsed item when there is a non-empty one (the truthiness test on
   * the result of getItem), the initial value otherwise.
   */
  function Load(items: map<string, string>, key: string, initial: Value): Result<Value, Error> {
    if key in items && items[key] != [] then Parse(items[key]) else Ok(initial)
  }

  /**
   * The storage after the write-through effect ran for value `v`: the key
   * holds `stringify(v)`; when stringify throws, no item is written.
   */
  function Persist(items: map<string, string>, key: string, v: Value): (r: map<string, string>)
    ensures Serializable(v) ==> key in r && r[key] == Stringify(v).value
    ensures !Serializable(v) ==> r == items
    ensures r.Keys == if Serializable(v) then items.Keys + {key} else items.Keys
    ensures forall k :: k in items && k != key ==> r[k] == items[k]
  {
    match Stringify(v)
    case Ok(text) => items[key := text]
    case Err(_) => items
  }

  /** Whatever storable value was persisted under a key is what the next `useStorage` on that key starts with. */
  lemma PersistThenLoad(items: map<string, string>, key: string, v: Value, initial: Value)
    requires Storable(v)
    ensures Load(Persist(items, key, v), key, initial) == Ok(v)
  {
    RoundTrip(v);
  }

  /** A stored item that is not JSON makes loading throw its SyntaxError instead of falling back to the initial value. */
  lemma LoadMalformed(items: map<string, string>, key: string, initial: Value)
    requires key in items && items[key] != [] && Read(items[key]) == Err(Malformed)
    ensures Load(items, key, initial) == Err(SyntaxError)
  {
    MalformedRejected(items[key]);
  }

  /** An empty item is falsy, so it gives the initial value, although `parse` of it would throw. */
  lemma EmptyItemLoadsInitial(items: map<string, string>, key: string, initial: Value)
    requires key in items && items[key] == []
    ensures Load(items, key, initial) == Ok(initial)
    ensures Parse(items[key]) == Err(SyntaxError)
  {
    assert Read([]) == Err(Malformed);
  }

  /** An object `{a: 1, b: [1, 2]}` persisted under "k" in an empty storage area is what a later `useStorage` on "k" starts with. */
  lemma PersistedObjectExample(initial: Value)
    ensures var v := Object([("a", Num(1)), ("b", Array([Num(1), Num(2)]))]);
      Load(Persist(map[], "k", v), "k", initial) == Ok(v)
  {
    var v := Object([("a", Num(1)), ("b", Array([Num(1), Num(2)]))]);
    assert Storable(v.fields[1].1);
    assert Storable(v);
    PersistThenLoad(map[], "k", v, initial);
  }

  /** A Web Storage area (localStorage or sessionStorage): items by key. */
  class Store {
    var items: map<string, string>

    constructor (initial: map<string, string>)
      ensures items == initial
    {
      items := initial;
    }

    /** `getItem(key)`: the item, or `None` for null. */
    method GetItem(key: string) returns (item: Option<string>)
      ensures item.Some? <==> key in items
      ensures item.Some? ==> item.value == items[key]
    {
      item := if key in items then Some(items[key]) else None;
    }

    /** `setItem(key, text)`. */
    method SetItem(key: string, text: string)
      modifies this
      ensures items == old(items)[key := text]
    {
      items := items[key := text];
    }
  }

  /** The ref `useStorage(storage, key, initalValue)` returns, bound to its storage area and key. */
  class PersistedRef {
    const store: Store
    const key: string
    var value: Value

    /** The write-through effect has run for the current value. */
    ghost predicate Persisted()
      reads this, store
    {
      Serializable(value) ==> key in store.items && store.items[key] == Stringify(value).value
    }

    constructor Bind(store: Store, key: string, value: Value)
      ensures this.store == store && this.key == key && this.value == value
    {
      this.store := store;
      this.key := key;
      this.value := value;
    }

    /** `value.value = v`, followed by the effect that writes it to the storage area. */
    method Assign(v: Value)
      modifies this, store
      ensures value == v
      ensures store.items == Persist(old(store.items), key, v)
      ensures Persisted()
    {
      value := v;
      WriteThrough();
    }

    /** The body of the `watchEffect`: `storage.setItem(key, stringify(value.value))`. */
    method WriteThrough()
      modifies store
      ensures store.items == Persist(old(store.items), key, value)
      ensures Persisted()
    {
      match Stringify(value)
      case Ok(text) => store.SetItem(key, text);
      case Err(_) =>
    }

    /** Reading `value.value`. */
    method Get() returns (v: Value)
      ensures v == value
    {
      v := value;
    }
  }

  /**
   * `useStorage(storage, key, initalValue)`: the ref starts with the loaded
   * value and the effect writes it back at once; a stored item that does not
   * parse makes the call throw, before any ref exists or anything is written.
   */
  method Open(store: Store, key: string, initial: Value) returns (r: Result<PersistedRef, Error>)
    modifies store
    ensures r.Err? ==> store.items == old(store.items) && Load(old(store.items), key, initial) == Err(r.error)
    ensures r.Ok? ==> Load(old(store.items), key, initial) == Ok(r.value.value)
    ensures r.Ok? ==> fresh(r.value) && r.value.store == store && r.value.key == key
    ensures r.Ok? ==> store.items == Persist(old(store.items), key, r.value.value) && r.value.Persisted()
  {
    var item := store.GetItem(key);
    var start: Value;
    match item {
      case Some(text) =>
        if text != [] {
          var parsed := Parse(text);
          if parsed.Err? {
            return Err(parsed.error);
          }
          start := parsed.value;
        } else {
          start := initial;
        }
      case None =>
        start := initial;
    }
    var ref := new PersistedRef.Bind(store, key, start);
    ref.WriteThrough();
    r := Ok(ref);
  }
}
