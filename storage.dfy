/**
 * `createStorage(adapter)` of src/utils/storage.ts: the adapter's four calls, each inside a
 * try/catch, so that a read that throws gives null and a write, removal or clear that throws
 * gives false. Nothing thrown reaches the caller. Logging is left out.
 */
module Storage {
  import opened Wrappers
  import opened StorageAdapter

  class GuardedStorage {
    const adapter: Adapter

    constructor (adapter: Adapter)
      ensures this.adapter == adapter
    {
      this.adapter := adapter;
    }

    /** `get(key)`: the adapter's answer, or null when the adapter throws. */
    method Get(key: string) returns (r: Option<string>)
      ensures r == Read(adapter.kind, adapter.access, adapter.items, key)
      ensures ReadThrows(adapter.kind, adapter.access) ==> r == None
      ensures r.Some? ==> key in adapter.items && r.value == adapter.items[key]
    {
      var a := adapter.GetItem(key);
      r := match a case Returned(v) => v case Threw => None;
    }

    /** `set(key, value)`: true exactly when `adapter.setItem` completed. */
    method Set(key: string, value: string) returns (ok: bool)
      modifies adapter
      ensures ok <==> !WriteThrows(adapter.kind, adapter.access)
      ensures adapter.items == Written(adapter.access, old(adapter.items), key, value)
    {
      var a := adapter.SetItem(key, value);
      ok := a.Returned?;
    }

    /** `remove(key)`: true exactly when `adapter.removeItem` completed. */
    method Remove(key: string) returns (ok: bool)
      modifies adapter
      ensures ok <==> !EraseThrows(adapter.kind, adapter.access)
      ensures adapter.items == Erased(adapter.access, old(adapter.items), key)
    {
      var a := adapter.RemoveItem(key);
      ok := a.Returned?;
    }

    /** `clear()`: true exactly when `adapter.clear` completed. */
    method Clear() returns (ok: bool)
      modifies adapter
      ensures ok <==> !EraseThrows(adapter.kind, adapter.access)
      ensures adapter.items == Emptied(adapter.access, old(adapter.items))
    {
      var a := adapter.Clear();
      ok := a.Returned?;
    }
  }
}
