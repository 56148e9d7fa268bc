/**
 * `useLocalStorage(key, initialValue)` of src/hooks/useLocalStorage.ts: one key's value, cached
 * in `storedValue` and kept in storage through `createStorage` over the context's adapter.
 *
 * JSON is left abstract: a `Json<T>` record holds `JSON.parse`, `JSON.stringify` and the two
 * run-time tests the hook makes on a `T` (is it a string, is it null or undefined).
 */
module LocalStorageHook {
  import opened Wrappers
  import opened StorageAdapter
  import opened Storage

  /** JSON and the run-time view of a `T`, as the hook uses them. */
  datatype Json<!T> = Json(
    /** `JSON.parse(text)`, `None` when it throws. */
    parse: string -> Option<T>,
    /** `JSON.stringify(value)`. */
    stringify: T -> string,
    /** The string a value is, when `typeof value === 'string'`. */
    asText: T -> Option<string>,
    /** A string used as a `T` (`item as T` changes the type, not the value). */
    fromText: string -> T,
    /** `value === null || value === undefined`. */
    nullish: T -> bool)

  /**
   * What JavaScript guarantees of these: a string taken as a `T` is that string, a string is
   * neither null nor undefined, and a `T` that is a string is the string taken as a `T`.
   */
  ghost predicate Coherent<T(!new)>(j: Json<T>) {
    && (forall s :: j.asText(j.fromText(s)) == Some(s))
    && (forall v :: j.asText(v).Some? ==> !j.nullish(v) && j.fromText(j.asText(v).value) == v)
  }

  /** `JSON.parse(text)`, or the text itself when it is not JSON (the hook's try/catch). */
  function ParseOrRaw<T(!new)>(j: Json<T>, text: string): T {
    match j.parse(text)
    case Some(v) => v
    case None => j.fromText(text)
  }

  /**
   * The `useState` initialiser: a truthy item (present and not empty) is decoded; a missing or
   * empty item gives `initialValue`.
   */
  function Initial<T(!new)>(j: Json<T>, item: Option<string>, initialValue: T): (v: T)
    ensures item.None? || item == Some("") ==> v == initialValue
    ensures item.Some? && item.value != "" && j.parse(item.value).Some? ==> v == j.parse(item.value).value
    ensures Coherent(j) && item.Some? && item.value != "" && j.parse(item.value).None? ==>
      j.asText(v) == Some(item.value)
  {
    if item.Some? && item.value != "" then ParseOrRaw(j, item.value) else initialValue
  }

  /** The text `setValue(value)` stores for a value that is not nullish. */
  function Serialized<T(!new)>(j: Json<T>, value: T): (text: string)
    ensures Coherent(j) && j.asText(value).Some? ==> j.fromText(text) == value
    ensures j.asText(value).None? ==> text == j.stringify(value)
  {
    match j.asText(value)
    case Some(s) => s
    case None => j.stringify(value)
  }

  /** A `storage` event of the window: the key it concerns (null for a clear) and the new value. */
  datatype StorageEvent = StorageEvent(key: Option<string>, newValue: Option<string>)

  /**
   * The cached value after the hook's `storage` listener sees `e`: only an event for this key
   * with a non-null new value changes it (an empty new value included, unlike the initial read).
   */
  function AfterEvent<T(!new)>(j: Json<T>, key: string, current: T, e: StorageEvent): (v: T)
    ensures e.key != Some(key) || e.newValue.None? ==> v == current
    ensures e.key == Some(key) && e.newValue.Some? && j.parse(e.newValue.value).Some? ==>
      v == j.parse(e.newValue.value).value
    ensures Coherent(j) && e.key == Some(key) && e.newValue.Some? && j.parse(e.newValue.value).None? ==>
      j.asText(v) == e.newValue
  {
    if e.key == Some(key) && e.newValue.Some? then ParseOrRaw(j, e.newValue.value) else current
  }

  /** Every key other than `key` has the same entry in `m` as in `before`. */
  ghost predicate OthersKept(before: map<string, string>, m: map<string, string>, key: string) {
    forall k :: k != key ==> (k in m <==> k in before) && (k in m ==> m[k] == before[k])
  }

  class Hook<T(!new)> {
    const json: Json<T>
    const key: string
    const initialValue: T
    /** `createStorage(useStorageAdapter())`. */
    const storage: GuardedStorage
    /** `storedValue`, the value the hook returns. */
    var storedValue: T

    /** The first render: the item is read once through `storage.get`. */
    constructor (json: Json<T>, key: string, initialValue: T, storage: GuardedStorage)
      ensures this.json == json && this.key == key && this.initialValue == initialValue
      ensures this.storage == storage
      ensures storedValue ==
        Initial(json, Read(storage.adapter.kind, storage.adapter.access, storage.adapter.items, key), initialValue)
    {
      this.json := json;
      this.key := key;
      this.initialValue := initialValue;
      this.storage := storage;
      var item := storage.Get(key);
      storedValue := Initial(json, item, initialValue);
    }

    /**
     * `setValue(value)`: the cache takes the value; storage loses the key for null or undefined,
     * and otherwise gets the value's text (a string verbatim, anything else as JSON).
     */
    method SetValue(value: T)
      modifies storage.adapter, this`storedValue
      ensures storedValue == value
      ensures json.nullish(value) ==> storage.adapter.items == Erased(storage.adapter.access, old(storage.adapter.items), key)
      ensures !json.nullish(value) ==>
        storage.adapter.items == Written(storage.adapter.access, old(storage.adapter.items), key, Serialized(json, value))
      ensures !json.nullish(value) && json.asText(value).Some? && storage.adapter.access == Available ==>
        storage.adapter.items[key] == json.asText(value).value
      ensures OthersKept(old(storage.adapter.items), storage.adapter.items, key)
    {
      storedValue := value;
      var ok;
      if json.nullish(value) {
        ok := storage.Remove(key);
      } else {
        var text := match json.asText(value) case Some(s) => s case None => json.stringify(value);
        ok := storage.Set(key, text);
      }
    }

    /** `removeValue()`: back to `initialValue`, and the key removed from storage. */
    method RemoveValue()
      modifies storage.adapter, this`storedValue
      ensures storedValue == initialValue
      ensures storage.adapter.items == Erased(storage.adapter.access, old(storage.adapter.items), key)
      ensures storage.adapter.access != Blocked ==> key !in storage.adapter.items
      ensures OthersKept(old(storage.adapter.items), storage.adapter.items, key)
    {
      storedValue := initialValue;
      var ok := storage.Remove(key);
    }

    /** The `storage` listener: another tab's change to this key replaces the cached value. */
    method HandleStorageEvent(e: StorageEvent)
      modifies this`storedValue
      ensures storedValue == AfterEvent(json, key, old(storedValue), e)
    {
      if e.key == Some(key) && e.newValue.Some? {
        var text := e.newValue.value;
        storedValue := match json.parse(text) case Some(v) => v case None => json.fromText(text);
      }
    }
  }

  /**
   * Mounting the hook again over storage written by `setValue(value)` on a working backend: an
   * empty text falls back to `initialValue`; text that parses as JSON comes back parsed (so a
   * string such as "42" comes back as what "42" parses to); a string that is not JSON comes back
   * as itself; and a non-string value comes back as itself when JSON round-trips it.
   */
  lemma RemountAfterSetValue<T(!new)>(j: Json<T>, kind: Kind, items: map<string, string>, key: string, value: T, initialValue: T)
    requires Coherent(j) && !j.nullish(value)
    ensures var text := Serialized(j, value);
      var back := Initial(j, Read(kind, Available, Written(Available, items, key, text), key), initialValue);
      && (text == "" ==> back == initialValue)
      && (text != "" && j.parse(text).Some? ==> back == j.parse(text).value)
      && (text != "" && j.parse(text).None? && j.asText(value).Some? ==> back == value)
      && (text != "" && j.asText(value).None? && j.parse(text) == Some(value) ==> back == value)
  {
    var text := Serialized(j, value);
    var m := Written(Available, items, key, text);
    assert key in m && m[key] == text;
    if text != "" {
      assert Read(kind, Available, m, key) == Some(text);
    }
  }

  /** Mounting the hook again after `removeValue()` gives `initialValue`, on either adapter. */
  lemma RemountAfterRemoveValue<T(!new)>(j: Json<T>, kind: Kind, access: Access, items: map<string, string>, key: string, initialValue: T)
    requires kind == Memory ==> access == Available
    ensures Initial(j, Read(kind, access, Erased(access, items, key), key), initialValue) == initialValue
  {
    ReadAfterRemove(kind, access, items, key);
  }
}
