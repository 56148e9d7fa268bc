# fact.rip visitor journey — a Dafny model

This project models the stateful core of the fact.rip landing site:

- the **user-journey reducer**: the visitor/modal state machine with its nine actions;
- the **journey provider**: it initialises that state from storage and mirrors the two persisted fields back. It also runs the `joinWatchtower` and `reset` sequences;
- the **storage adapters**: the local-storage adapter, which swallows failures, and the in-memory adapter;
- the **guarded storage utility** `createStorage`, which turns adapter exceptions into `null` or `false`;
- the **`useLocalStorage` hook**: one key's value, cached in the hook and kept in storage.

One Dafny module per source file:

| file | module | source |
|---|---|---|
| `user_journey.dfy` | `UserJourney` | `src/state/userJourney.ts` |
| `user_journey_context.dfy` | `UserJourneyContext` | `src/contexts/UserJourneyContext.tsx` |
| `storage_adapter.dfy` | `StorageAdapter` | `src/utils/storage-adapter.ts` |
| `storage.dfy` | `Storage` | `src/utils/storage.ts` |
| `local_storage_hook.dfy` | `LocalStorageHook` | `src/hooks/useLocalStorage.ts` |
| `wrappers.dfy` | `Wrappers` | `Option`, the model of `T \| null` |

How the model is built:

- **The reducer is pure.** It is a `JourneyState` datatype, an `Action` datatype and the function `Reduce`. `Action` has the nine declared actions plus `Unrecognized`, which stands for the reducer's `default` branch. `modalState` has type `ModalState`, so for every run of actions it holds one of the four values by construction.
- **INITIALIZE takes a `Partial<UserJourneyState>`.** This is modelled by `Patch`: a field is `Some` exactly when the object has that property.
- **One class stands for all adapters.** `StorageAdapter.Adapter` has a `kind` tag: the local-storage adapter, the memory adapter, or `Bare`. `Bare` is the browser's own Storage object passed where an adapter is expected. The adapter interface is structural, so `createStorage` accepts it, and its calls can throw: they do whenever the browser refuses them. That makes the catch branches of `createStorage` reachable.
- **Backend failure is a parameter.** An `Access` value says how the browser's storage behaves. `Available` means it works. `Full` means `setItem` throws, as on an exceeded quota. `Blocked` means every call throws, as when storage is disabled or sandboxed. The memory adapter is always `Available`.
- **React's scheduling is made explicit.**
  - `Dispatch` runs the reducer and nothing else.
  - `Commit` is one render. After it, the effects whose dependencies changed run in declaration order: the sync effect, then the modal-event effect.
  - The two timers of `joinWatchtower` and the animation frame of `reset` become method boundaries. Only their order matters.
  - A ghost `trace` records every dispatch, storage call and notification in order. The ordering properties are stated over it.
- **Batching has one consequence.** SHOW_MODAL and MODAL_READY are dispatched in the same timer callback, so one render sees both. That render reports `modal:ready` when the dialog was not already ready, and never `modal:showing` (`BatchedRenderReportsReady`).
- **JSON in the hook is abstract.** A `Json<T>` record holds `JSON.parse`, `JSON.stringify` and the two run-time tests the hook makes: is the value a string, is it null or undefined. `Coherent` states what JavaScript guarantees of those tests.

## Model

| member | source | states |
|---|---|---|
| `UserJourney.Reduce` | src/state/userJourney.ts:27-67 | No action touches a field outside its declared set, and unknown actions leave the state unchanged. START_JOIN sets loading. SHOW_MODAL clears loading and shows the dialog. MODAL_READY, CLOSE_MODAL and MODAL_HIDDEN set the dialog to ready, closing and hidden. CONFIRM_JOIN(t) sets visited, joined = t and ready, and keeps loading. RESET and RESET_COMPLETE give exactly the initial state. INITIALIZE is the merge. |
| `UserJourney.Merge` | src/state/userJourney.ts:32-33 | Every field present in the partial state overrides. Every absent field keeps its current value. |
| `UserJourney.RunAppend` | src/state/userJourney.ts:27-67 | Dispatching two lists of actions one after the other is dispatching their concatenation. |
| `UserJourney.RunFrame` | src/state/userJourney.ts:27-67 | A field that no action of a run touches ends the run with its starting value. |
| `UserJourney.RunFieldNonInterference` | src/state/userJourney.ts:27-67 | Two states that agree on a field still agree on it after the same run of actions. No field's outcome depends on the other fields. |
| `UserJourney.RunEndingInResetComplete` | src/state/userJourney.ts:61-62 | Any run that ends with RESET_COMPLETE ends in the initial state, whatever came before. |
| `UserJourney.JoinSequenceOutcome` | src/contexts/UserJourneyContext.tsx:79-94 | From any state, START_JOIN, SHOW_MODAL, MODAL_READY, CONFIRM_JOIN(t) ends visited, joined at t, dialog ready, not loading. |
| `UserJourneyContext.ModalEvent` | src/contexts/UserJourneyContext.tsx:66-75 | Each modal state is reported as "modal:" followed by its name in the state type, and no two states are reported under the same name. |
| `UserJourneyContext.SyncCalls` | src/contexts/UserJourneyContext.tsx:50-61 | The sync effect makes exactly two calls, visited key first. The visited key is written "true" iff `hasVisited`, and removed otherwise. The joined key is written the timestamp iff it is truthy, and removed otherwise. |
| `UserJourneyContext.SyncDue` | src/contexts/UserJourneyContext.tsx:45-62 | The sync effect never runs before initialisation (the guard), always runs at the first render after it, and afterwards runs iff a persisted field changed. Modal state and loading are not among its dependencies. |
| `UserJourneyContext.CommitEffects` | src/contexts/UserJourneyContext.tsx:45-77 | A render never dispatches. It starts with the sync calls exactly when the sync is due, and otherwise makes only notifications. It ends with one report of the new modal state iff the modal state changed and a callback listens. |
| `UserJourneyContext.Synced` | src/contexts/UserJourneyContext.tsx:45-62 | After a sync, the visited key holds "true" iff `hasVisited`. The joined key holds the timestamp iff it is non-null and non-empty. Every other key is unchanged. |
| `UserJourneyContext.PerformSyncCalls` | src/contexts/UserJourneyContext.tsx:50-61 | On working storage, the sync effect's two adapter calls produce exactly `Synced`. |
| `UserJourneyContext.PerformSyncCallsBlocked` | src/contexts/UserJourneyContext.tsx:50-61 | On blocked storage, the sync effect's calls change nothing. |
| `UserJourneyContext.SyncedPersistedOnly` | src/contexts/UserJourneyContext.tsx:45-62 | What the sync writes depends only on the two persisted fields, never on the modal state or on loading. |
| `UserJourneyContext.SyncedIdempotent` | src/contexts/UserJourneyContext.tsx:45-62 | Syncing an already synced store changes nothing. |
| `UserJourneyContext.SyncedIgnoresJourneyKeys` | src/contexts/UserJourneyContext.tsx:45-62 | The synced store does not depend on what the two journey keys held before. |
| `UserJourneyContext.PerformKeepsOtherKeys` | src/contexts/UserJourneyContext.tsx:45-109 | Any run of the provider's storage calls leaves every key other than the two journey keys unchanged. The provider only writes "true" to the visited key and a non-empty timestamp to the joined key. |
| `UserJourneyContext.Restored` | src/contexts/UserJourneyContext.tsx:33-41 | INITIALIZE receives visited = true iff the stored visited value is exactly "true". It receives joined = the stored string, or null when it is absent or unreadable, or empty on the memory adapter. The modal state and loading are not in the patch. |
| `UserJourneyContext.SyncThenRestore` | src/contexts/UserJourneyContext.tsx:33-62 | Round trip: initialising from a store the sync wrote reproduces `hasVisited` and any non-empty timestamp. An empty timestamp comes back as null. The transient fields are kept. |
| `UserJourneyContext.RestoreThenSync` | src/contexts/UserJourneyContext.tsx:33-62 | Reverse round trip: on working storage, syncing straight after initialising leaves storage unchanged exactly when it was canonical. Canonical means visited is only ever "true" and joined is never empty. |
| `UserJourneyContext.BatchedRenderReportsReady` | src/contexts/UserJourneyContext.tsx:84-86 | The render after SHOW_MODAL and MODAL_READY never reports `modal:showing`. It reports `modal:ready` iff a callback listens and the dialog was not ready at the previous render. |
| `UserJourneyContext.CommitEffectsShape` | src/contexts/UserJourneyContext.tsx:45-77 | A render's effects never dispatch, and make only the safe storage calls. |
| `UserJourneyContext.Provider.constructor` | src/contexts/UserJourneyContext.tsx:25-42 | Mounting reads both keys and dispatches INITIALIZE with what it read. It writes no storage, because the sync effect is skipped until initialisation has rendered. It reports `modal:hidden` when a callback listens. |
| `UserJourneyContext.Provider.Dispatch` | src/contexts/UserJourneyContext.tsx:27 | A dispatch runs the reducer and touches no storage. |
| `UserJourneyContext.Provider.Notify` | src/contexts/UserJourneyContext.tsx:92 | `onJourneyEvent?.(event)` records the event only when a callback was given. |
| `UserJourneyContext.Provider.SyncIfDue` | src/contexts/UserJourneyContext.tsx:45-62 | The sync effect of a render makes the sync calls only when due. Afterwards storage mirrors the state, if it did before or if the sync ran, on working storage. |
| `UserJourneyContext.Provider.SyncToStorage` | src/contexts/UserJourneyContext.tsx:50-61 | The sync body makes exactly the two calls of `SyncCalls`, in order, and storage follows them. |
| `UserJourneyContext.Provider.Commit` | src/contexts/UserJourneyContext.tsx:45-77 | A render runs the sync effect at the first render after initialisation, and afterwards only when a persisted field changed. It then reports a modal change. On working storage, storage then mirrors the rendered state if it did before or if the sync ran. |
| `UserJourneyContext.Provider.RemoveJourneyKeys` | src/contexts/UserJourneyContext.tsx:101-102 | Both journey keys are removed, visited first. |
| `UserJourneyContext.Provider.BeginJoin` | src/contexts/UserJourneyContext.tsx:79-80 | START_JOIN is dispatched, then rendered. Storage stays in sync. |
| `UserJourneyContext.Provider.OpenModal` | src/contexts/UserJourneyContext.tsx:84-86 | SHOW_MODAL and MODAL_READY are dispatched in one batch, then rendered. |
| `UserJourneyContext.Provider.ConfirmJoining` | src/contexts/UserJourneyContext.tsx:90-92 | CONFIRM_JOIN(t) is dispatched, then `join:confirmed` is reported, then the render persists it. |
| `UserJourneyContext.Provider.JoinWatchtower` | src/contexts/UserJourneyContext.tsx:79-95 | The dispatches are exactly START_JOIN, SHOW_MODAL, MODAL_READY, CONFIRM_JOIN(t), in that order. `join:confirmed` directly follows CONFIRM_JOIN. The state ends joined at t, dialog ready, not loading. On working storage, storage ends synced with it when it mirrored the state before. |
| `UserJourneyContext.Provider.ClearJourney` | src/contexts/UserJourneyContext.tsx:97-102 | RESET, then both keys removed. The state is initial and storage has lost exactly the two keys, unless it is blocked. |
| `UserJourneyContext.Provider.BeginReset` | src/contexts/UserJourneyContext.tsx:97-102 | The render after RESET writes nothing back. On working storage, it leaves storage in sync. |
| `UserJourneyContext.Provider.CompleteReset` | src/contexts/UserJourneyContext.tsx:105-108 | From any state, the animation frame reports `reset:complete`, dispatches RESET_COMPLETE and renders the initial state. Storage follows the render's sync calls. When it fires right after the RESET render, storage is unchanged. When the render's sync runs on working storage, storage ends mirroring the initial state, so whatever a late join timer persisted is removed. |
| `UserJourneyContext.ResetSegment` | src/contexts/UserJourneyContext.tsx:97-109 | Whatever the render between click and frame does without writing or dispatching, a reset's stretch of trace starts with RESET and the two removals and ends with RESET_COMPLETE, directly preceded by `reset:complete` when observed. It writes nothing, and its dispatches are exactly RESET and RESET_COMPLETE. |
| `UserJourneyContext.ResetTrace` | src/contexts/UserJourneyContext.tsx:97-109 | The click with its render, followed by the frame with its render, gives a stretch with the removals first, RESET_COMPLETE last, no write, and exactly the dispatches RESET and RESET_COMPLETE. |
| `UserJourneyContext.Provider.Reset` | src/contexts/UserJourneyContext.tsx:97-109 | Both removals come before RESET_COMPLETE. Nothing is written during a reset. The dispatches are exactly RESET, then RESET_COMPLETE. The state ends initial, and the two keys are gone unless storage is blocked, while every other key is kept. |
| `StorageAdapter.Read` | src/utils/storage-adapter.ts:9-55 | A read returns only what is stored under the key. The memory adapter reads an empty string as null (`\|\| null`). The local adapter reads null exactly when the key is missing or the browser throws. |
| `StorageAdapter.Written` | src/utils/storage-adapter.ts:17-59 | A write that the backend accepts stores the value. A refused write changes nothing. Other keys are untouched. |
| `StorageAdapter.Erased` | src/utils/storage-adapter.ts:25-63 | A removal drops the key unless the backend is blocked. Other keys are untouched. |
| `StorageAdapter.Emptied` | src/utils/storage-adapter.ts:33-67 | A clear empties the store unless the backend is blocked. |
| `StorageAdapter.FromEntriesKeys` | src/utils/storage-adapter.ts:45-51 | The store built from the entries has a key iff some entry has that key. |
| `StorageAdapter.FromEntriesValues` | src/utils/storage-adapter.ts:45-51 | With distinct keys, each entry's key holds that entry's value. |
| `StorageAdapter.FromEntriesHoldsEntries` | src/utils/storage-adapter.ts:45-51 | The constructor's store has exactly the keys of `initialData`, each with its value. |
| `StorageAdapter.Adapter.MemoryStorageAdapter` | src/utils/storage-adapter.ts:45-51 | The store is built by setting the entries in order, or is empty without `initialData`. |
| `StorageAdapter.Adapter.LocalStorageAdapter` | src/utils/storage-adapter.ts:8 | The adapter sits over the browser's storage contents. |
| `StorageAdapter.Adapter.BareLocalStorage` | src/utils/storage.ts:2-7 | The browser object itself, used as an adapter. |
| `StorageAdapter.Adapter.GetItem` | src/utils/storage-adapter.ts:9-55 | It throws only for the bare browser object on blocked storage. Otherwise it returns `Read`. |
| `StorageAdapter.Adapter.SetItem` | src/utils/storage-adapter.ts:17-23 | It throws only for the bare browser object when the backend refuses. The store becomes `Written`. |
| `StorageAdapter.Adapter.RemoveItem` | src/utils/storage-adapter.ts:25-31 | It throws only for the bare browser object on blocked storage. The store becomes `Erased`. |
| `StorageAdapter.Adapter.Clear` | src/utils/storage-adapter.ts:33-39 | It throws only for the bare browser object on blocked storage. The store becomes `Emptied`. |
| `StorageAdapter.ReadAfterWrite` | src/utils/storage-adapter.ts:53-59 | On working storage, after `setItem(k, v)`, `getItem(k)` returns v, except on the memory adapter, where an empty v reads back as null. |
| `StorageAdapter.ReadAfterRemove` | src/utils/storage-adapter.ts:61-63 | After `removeItem(k)`, `getItem(k)` is null. |
| `StorageAdapter.ReadAfterClear` | src/utils/storage-adapter.ts:65-67 | After `clear()`, every `getItem` is null. |
| `Storage.GuardedStorage.constructor` | src/utils/storage.ts:1-8 | `createStorage(adapter)` keeps the adapter it is given, and every call goes to that adapter. |
| `Storage.GuardedStorage.Get` | src/utils/storage.ts:9-16 | It never throws. It returns the stored value or null, and null whenever the adapter throws. |
| `Storage.GuardedStorage.Set` | src/utils/storage.ts:18-26 | It never throws. It returns true iff `setItem` did not throw, and the store follows the adapter. |
| `Storage.GuardedStorage.Remove` | src/utils/storage.ts:28-36 | It never throws. It returns true iff `removeItem` did not throw. |
| `Storage.GuardedStorage.Clear` | src/utils/storage.ts:38-46 | It never throws. It returns true iff `clear` did not throw. |
| `LocalStorageHook.Initial` | src/hooks/useLocalStorage.ts:12-22 | A missing or empty item gives `initialValue`. Otherwise the item is parsed as JSON, or kept as the raw string when parsing fails. |
| `LocalStorageHook.Serialized` | src/hooks/useLocalStorage.ts:29 | A string value is stored verbatim, and reading it as a `T` gives the value back. Any other value is stored as its `JSON.stringify` text. |
| `LocalStorageHook.AfterEvent` | src/hooks/useLocalStorage.ts:40-48 | Only an event for this key with a non-null new value changes the cached value. It becomes the parsed or raw new value, and an empty one is accepted. |
| `LocalStorageHook.Hook.constructor` | src/hooks/useLocalStorage.ts:12-22 | The cached value starts as `Initial` of what `storage.get(key)` returns. |
| `LocalStorageHook.Hook.SetValue` | src/hooks/useLocalStorage.ts:24-32 | The cache takes the value. Null or undefined removes the key, and a string is stored verbatim. No other key changes. |
| `LocalStorageHook.Hook.RemoveValue` | src/hooks/useLocalStorage.ts:34-37 | The cache goes back to `initialValue` and the key is removed. No other key changes. |
| `LocalStorageHook.Hook.HandleStorageEvent` | src/hooks/useLocalStorage.ts:39-52 | The cached value becomes `AfterEvent` of the event. |
| `LocalStorageHook.RemountAfterSetValue` | src/hooks/useLocalStorage.ts:12-32 | On working storage, mounting the hook again after `setValue(v)` gives back v when v is a non-JSON string, or a value that JSON round-trips. Text that parses as JSON comes back parsed, and an empty string gives `initialValue`. |
| `LocalStorageHook.RemountAfterRemoveValue` | src/hooks/useLocalStorage.ts:12-37 | Mounting the hook again after `removeValue()` gives `initialValue`. |

## Left out

- Timing is not modelled: the 300 ms and 100 ms delays of `joinWatchtower` and the animation frame of `reset` only order the steps. Timers that fire after the provider unmounts are not modelled either.
- Logging is not modelled. This covers `console.warn` and `console.error` in `createStorage`.
- The `data` argument of `onJourneyEvent('join:confirmed', { timestamp })` is not modelled. Only the event name is recorded.
- The choice between the two adapters at start-up (`src/contexts/StorageContext.tsx`) is not part of this model. The provider takes the adapter as a parameter.
- The `useUserJourney` context accessor is not part of this model. It is React context plumbing.
- JSON itself is not modelled: `JSON.parse` and `JSON.stringify` are parameters of the hook (`Json<T>`), and so are the `typeof` tests.
- The hook's listener registration (`addEventListener` / `removeEventListener`) is not modelled. `HandleStorageEvent` is the listener's body.
- React renders of the hook are not modelled: `setStoredValue` is an assignment to `storedValue`.
- `UserJourneyContext.Provider.JoinWatchtower` states storage sync only for working storage. On a backend that refuses writes, the storage result is given by `Perform` over the trace, and no closed form is stated.
- `UserJourneyContext.Provider.JoinWatchtower` and `UserJourneyContext.Provider.Reset` assume that neither sequence's timers interleave with the other's. The step methods allow any order. In the order where a join timer fires after a reset has completed, the join is persisted again. Their contracts do not cover that order.
- `UserJourneyContext.Provider` assumes its adapter is the local-storage adapter or the memory adapter. The storage context builds one of them when it is given no adapter (`src/contexts/StorageContext.tsx`), but it accepts any adapter as a prop. An adapter passed in that throws is not modelled for the provider.
- `LocalStorageHook.Hook.HandleStorageEvent` updates only the cached value. A `storage` event means another tab has already changed the shared storage, but the model leaves the adapter's store as it was. A remount after an event in the model therefore reads the old value.
- `LocalStorageHook.Hook.SetValue` does not model `JSON.stringify` throwing, as it does on cyclic or BigInt values. In the source, `setValue` then throws after the cache was updated and before storage is written. `stringify` is total in `Json<T>`.
- Telemetry, the error boundary, emergency storage, runtime guards, presentational components and the CI scripts are outside the modelled core.
