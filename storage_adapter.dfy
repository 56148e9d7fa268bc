/**
 * The StorageAdapter interface of src/utils/storage-adapter.ts and its two implementations:
 * LocalStorageAdapter over the browser's `window.localStorage`, and MemoryStorageAdapter over a
 * private map. The interface is structural, so the browser's own Storage object satisfies it too;
 * unlike the two adapters, its calls throw when the browser refuses them. All three are one class here, told apart by `kind`.
 */
module StorageAdapter {
  import opened Wrappers

  /** The outcome of a call that may throw: the exception made a value. */
  datatype Attempt<T> = Returned(value: T) | Threw

  /**
   * Which implementation of the interface an adapter is: `Bare` is `window.localStorage` itself,
   * handed over without an adapter class around it.
   */
  datatype Kind = LocalStorage | Memory | Bare

  /**
   * Whether the browser's storage accepts calls: `Full` makes every `setItem` throw (quota
   * exceeded); `Blocked` makes every call throw (storage disabled or a sandboxed context).
   */
  datatype Access = Available | Full | Blocked

  // The browser's own Storage object, whose calls throw as `access` says.

  function BrowserGetItem(access: Access, items: map<string, string>, key: string): Attempt<Option<string>> {
    if access == Blocked then Threw
    else if key in items then Returned(Some(items[key]))
    else Returned(None)
  }

  function BrowserSetItem(access: Access, items: map<string, string>, key: string, value: string): Attempt<map<string, string>> {
    if access == Available then Returned(items[key := value]) else Threw
  }

  function BrowserRemoveItem(access: Access, items: map<string, string>, key: string): Attempt<map<string, string>> {
    if access == Blocked then Threw else Returned(items - {key})
  }

  function BrowserClear(access: Access, items: map<string, string>): Attempt<map<string, string>> {
    if access == Blocked then Threw else Returned(map[])
  }

  /** The contents after a throwing call are the contents before it. */
  function Settle(a: Attempt<map<string, string>>, before: map<string, string>): map<string, string> {
    if a.Returned? then a.value else before
  }

  /**
   * What `getItem(key)` returns. The memory adapter answers `store.get(key) || null`, so a stored
   * empty string reads as null; the local adapter passes the browser's answer through and reads
   * null when the browser throws. For the bare browser object this is its answer when it answers
   * (when it throws, a caller that catches sees null).
   */
  function Read(kind: Kind, access: Access, items: map<string, string>, key: string): (r: Option<string>)
    ensures r.Some? ==> key in items && r.value == items[key]
    ensures kind == Memory ==> (r.Some? <==> key in items && items[key] != "")
    ensures kind != Memory ==> (r.Some? <==> access != Blocked && key in items)
  {
    match kind
    case Memory => if key in items && items[key] != "" then Some(items[key]) else None
    case _ =>
      var a := BrowserGetItem(access, items, key);
      if a.Threw? then None else a.value
  }

  /** Whether a read throws out of the adapter: only the bare browser object lets it through. */
  predicate ReadThrows(kind: Kind, access: Access) {
    kind == Bare && access == Blocked
  }

  /** Whether a write throws out of the adapter. */
  predicate WriteThrows(kind: Kind, access: Access) {
    kind == Bare && access != Available
  }

  /** Whether a removal or a clear throws out of the adapter. */
  predicate EraseThrows(kind: Kind, access: Access) {
    kind == Bare && access == Blocked
  }

  /** The contents after `setItem(key, value)`: a write the browser refuses changes nothing. */
  function Written(access: Access, items: map<string, string>, key: string, value: string): (m: map<string, string>)
    ensures access == Available ==> key in m && m[key] == value
    ensures access != Available ==> m == items
    ensures forall k :: k != key ==> (k in m <==> k in items) && (k in m ==> m[k] == items[k])
  {
    Settle(BrowserSetItem(access, items, key, value), items)
  }

  /** The contents after `removeItem(key)`. */
  function Erased(access: Access, items: map<string, string>, key: string): (m: map<string, string>)
    ensures access != Blocked ==> key !in m
    ensures access == Blocked ==> m == items
    ensures forall k :: k != key ==> (k in m <==> k in items) && (k in m ==> m[k] == items[k])
  {
    Settle(BrowserRemoveItem(access, items, key), items)
  }

  /** The contents after `clear()`. */
  function Emptied(access: Access, items: map<string, string>): (m: map<string, string>)
    ensures access != Blocked ==> m == map[]
    ensures access == Blocked ==> m == items
  {
    Settle(BrowserClear(access, items), items)
  }

  /** The map `initialData` entries build when set one after another (a later key overrides). */
  function FromEntries(entries: seq<(string, string)>): map<string, string>
    decreases |entries|
  {
    if entries == [] then map[]
    else
      var last := entries[|entries| - 1];
      FromEntries(entries[..|entries| - 1])[last.0 := last.1]
  }

  /** No key occurs twice, as in the entries of a JavaScript object. */
  predicate DistinctKeys(entries: seq<(string, string)>) {
    forall i, j :: 0 <= i < j < |entries| ==> entries[i].0 != entries[j].0
  }

  /** Every prefix of entries with distinct keys has distinct keys. */
  lemma DistinctKeysPrefix(entries: seq<(string, string)>, n: nat)
    requires DistinctKeys(entries) && n <= |entries|
    ensures DistinctKeys(entries[..n])
  {
    var front := entries[..n];
    forall i, j | 0 <= i < j < |front| ensures front[i].0 != front[j].0 {
      assert front[i] == entries[i] && front[j] == entries[j];
    }
  }

  /** The built map has exactly the keys of the entries. */
  lemma {:induction false} FromEntriesKeys(entries: seq<(string, string)>)
    ensures forall k :: k in FromEntries(entries) <==> exists i :: 0 <= i < |entries| && entries[i].0 == k
    decreases |entries|
  {
    if entries != [] {
      var n := |entries| - 1;
      var front := entries[..n];
      FromEntriesKeys(front);
      var m := FromEntries(entries);
      assert m == FromEntries(front)[entries[n].0 := entries[n].1];
      forall k ensures k in m <==> exists i :: 0 <= i < |entries| && entries[i].0 == k {
        if k in m && k != entries[n].0 {
          assert k in FromEntries(front);
          var i :| 0 <= i < |front| && front[i].0 == k;
          assert entries[i].0 == k;
        }
        if exists i :: 0 <= i < |entries| && entries[i].0 == k {
          var i :| 0 <= i < |entries| && entries[i].0 == k;
          if i < n {
            assert front[i].0 == k;
          }
        }
      }
    }
  }

  /** With distinct keys, each entry's key maps to that entry's value. */
  lemma {:induction false} FromEntriesValues(entries: seq<(string, string)>)
    requires DistinctKeys(entries)
    ensures forall i :: 0 <= i < |entries| ==> entries[i].0 in FromEntries(entries) && FromEntries(entries)[entries[i].0] == entries[i].1
    decreases |entries|
  {
    if entries != [] {
      var n := |entries| - 1;
      var front := entries[..n];
      DistinctKeysPrefix(entries, n);
      FromEntriesValues(front);
      var m := FromEntries(entries);
      assert m == FromEntries(front)[entries[n].0 := entries[n].1];
      forall i | 0 <= i < |entries| ensures entries[i].0 in m && m[entries[i].0] == entries[i].1 {
        if i < n {
          assert front[i] == entries[i];
          assert entries[i].0 != entries[n].0;
        }
      }
    }
  }

  /** With distinct keys, the built map holds exactly the entries. */
  lemma FromEntriesHoldsEntries(entries: seq<(string, string)>)
    requires DistinctKeys(entries)
    ensures forall k :: k in FromEntries(entries) <==> exists i :: 0 <= i < |entries| && entries[i].0 == k
    ensures forall i :: 0 <= i < |entries| ==> entries[i].0 in FromEntries(entries) && FromEntries(entries)[entries[i].0] == entries[i].1
  {
    FromEntriesKeys(entries);
    FromEntriesValues(entries);
  }

  class Adapter {
    const kind: Kind
    const access: Access
    /** The browser's storage contents (local adapter) or the private `store` map (memory adapter). */
    var items: map<string, string>

    /** A memory adapter never fails. */
    ghost predicate Valid()
      reads this
    {
      kind == Memory ==> access == Available
    }

    /** `new MemoryStorageAdapter(initialData)`: the store holds the entries, set in order. */
    constructor MemoryStorageAdapter(initialData: Option<seq<(string, string)>>)
      ensures Valid() && kind == Memory
      ensures items == if initialData.Some? then FromEntries(initialData.value) else map[]
    {
      kind := Memory;
      access := Available;
      var store := map[];
      if initialData.Some? {
        var entries := initialData.value;
        var i := 0;
        while i < |entries|
          invariant 0 <= i <= |entries|
          invariant store == FromEntries(entries[..i])
        {
          assert entries[..i + 1][..i] == entries[..i];
          store := store[entries[i].0 := entries[i].1];
          i := i + 1;
        }
        assert entries[..i] == entries;
      }
      items := store;
    }

    /** `new LocalStorageAdapter()` over a browser storage holding `contents`. */
    constructor LocalStorageAdapter(contents: map<string, string>, access: Access)
      ensures Valid() && kind == LocalStorage && this.access == access && items == contents
    {
      kind := LocalStorage;
      this.access := access;
      items := contents;
    }

    /** `window.localStorage` itself, holding `contents`, used where an adapter is expected. */
    constructor BareLocalStorage(contents: map<string, string>, access: Access)
      ensures Valid() && kind == Bare && this.access == access && items == contents
    {
      kind := Bare;
      this.access := access;
      items := contents;
    }

    /**
     * `getItem(key)`. The two adapters never throw: the local adapter catches the browser's
     * exception and answers null.
     */
    method GetItem(key: string) returns (r: Attempt<Option<string>>)
      ensures r.Threw? <==> ReadThrows(kind, access)
      ensures r.Returned? ==> r.value == Read(kind, access, items, key)
      ensures kind != Bare ==> r.Returned?
    {
      match kind
      case Memory =>
        r := Returned(if key in items && items[key] != "" then Some(items[key]) else None);
      case LocalStorage =>
        var a := BrowserGetItem(access, items, key);
        r := Returned(if a.Threw? then None else a.value);
      case Bare =>
        r := BrowserGetItem(access, items, key);
    }

    /** `setItem(key, value)`: a refused write changes nothing; only the bare object throws. */
    method SetItem(key: string, value: string) returns (r: Attempt<()>)
      modifies this
      ensures r.Threw? <==> WriteThrows(kind, access)
      ensures items == Written(access, old(items), key, value)
    {
      var a := BrowserSetItem(access, items, key, value);
      if a.Returned? {
        items := a.value;
      }
      r := if kind == Bare && a.Threw? then Threw else Returned(());
    }

    /** `removeItem(key)`: a refused removal changes nothing; only the bare object throws. */
    method RemoveItem(key: string) returns (r: Attempt<()>)
      modifies this
      ensures r.Threw? <==> EraseThrows(kind, access)
      ensures items == Erased(access, old(items), key)
    {
      var a := BrowserRemoveItem(access, items, key);
      if a.Returned? {
        items := a.value;
      }
      r := if kind == Bare && a.Threw? then Threw else Returned(());
    }

    /** `clear()`: a refused clear changes nothing; only the bare object throws. */
    method Clear() returns (r: Attempt<()>)
      modifies this
      ensures r.Threw? <==> EraseThrows(kind, access)
      ensures items == Emptied(access, old(items))
    {
      var a := BrowserClear(access, items);
      if a.Returned? {
        items := a.value;
      }
      r := if kind == Bare && a.Threw? then Threw else Returned(());
    }
  }

  /** A non-empty value written to a working adapter reads back; an empty one reads back only locally. */
  lemma ReadAfterWrite(kind: Kind, items: map<string, string>, key: string, value: string)
    ensures Read(kind, Available, Written(Available, items, key, value), key) ==
      if kind == Memory && value == "" then None else Some(value)
  {
  }

  /** A removed key reads as null, on either adapter and whether or not the removal went through. */
  lemma ReadAfterRemove(kind: Kind, access: Access, items: map<string, string>, key: string)
    requires kind == Memory ==> access == Available
    ensures Read(kind, access, Erased(access, items, key), key) == None
  {
  }

  /** After a clear, every key reads as null. */
  lemma ReadAfterClear(kind: Kind, access: Access, items: map<string, string>, key: string)
    requires kind == Memory ==> access == Available
    ensures Read(kind, access, Emptied(access, items), key) == None
  {
  }
}
