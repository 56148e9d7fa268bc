/**
 * UserJourneyProvider of src/contexts/UserJourneyContext.tsx: the reducer state, the
 * `isInitialized` flag and the storage adapter, with the three effects (initialise from storage,
 * mirror state into storage, report modal changes), `joinWatchtower` and `reset`.
 *
 * React's scheduling is made explicit: `Dispatch` only runs the reducer; `Commit` is one render
 * followed by the effects whose dependencies changed since the previous render. Timers only order
 * the steps, so `JoinWatchtower` and `Reset` are the steps in the order the timers fire them.
 */
module UserJourneyContext {
  import opened Wrappers
  import opened StorageAdapter
  import opened UserJourney

  /** What the provider does that can be observed from outside, in order. */
  datatype Effect =
    | Dispatched(action: Action)
    | Wrote(key: string, value: string)
    | Removed(key: string)
    | Notified(event: string)

  /**
   * The `onJourneyEvent` name the modal effect reports for each modal state: "modal:" and the
   * state's own name, so that no two states are reported alike.
   */
  function ModalEvent(m: ModalState): (event: string)
    ensures event == "modal:" + ModalName(m)
    ensures forall other: ModalState :: other != m ==> event != "modal:" + ModalName(other)
  {
    // The names start with four different letters.
    assert forall other: ModalState :: ("modal:" + ModalName(other))[6] == ModalName(other)[0];
    match m
    case Showing => "modal:showing"
    case Ready => "modal:ready"
    case Closing => "modal:closing"
    case Hidden => "modal:hidden"
  }

  predicate JourneyKey(k: string) {
    k == VisitedKey || k == JoinedKey
  }

  /** A timestamp is stored only when it is truthy: null and the empty string both count as absent. */
  predicate HasTimestamp(s: JourneyState) {
    s.joinedTimestamp.Some? && s.joinedTimestamp.value != ""
  }

  /**
   * The two adapter calls the sync effect makes for state `s`, in order: the visited key is
   * written "true" when visited and removed otherwise, then the joined key is written the
   * timestamp when it is truthy and removed otherwise.
   */
  function SyncCalls(s: JourneyState): (calls: seq<Effect>)
    ensures |calls| == 2 && SafeEffects(calls)
    ensures calls[0].Wrote? <==> s.hasVisited
    ensures calls[0] == Wrote(VisitedKey, "true") || calls[0] == Removed(VisitedKey)
    ensures calls[1].Wrote? <==> HasTimestamp(s)
    ensures calls[1] == Wrote(JoinedKey, s.joinedTimestamp.GetOr("")) || calls[1] == Removed(JoinedKey)
  {
    [ if s.hasVisited then Wrote(VisitedKey, "true") else Removed(VisitedKey),
      if HasTimestamp(s) then Wrote(JoinedKey, s.joinedTimestamp.value) else Removed(JoinedKey) ]
  }

  /** The storage contents after one effect (effects other than storage calls change nothing). */
  function Apply(access: Access, items: map<string, string>, e: Effect): map<string, string> {
    match e
    case Wrote(k, v) => Written(access, items, k, v)
    case Removed(k) => Erased(access, items, k)
    case _ => items
  }

  /** The storage contents after a sequence of effects. */
  function Perform(access: Access, items: map<string, string>, effects: seq<Effect>): map<string, string>
    decreases |effects|
  {
    if effects == [] then items else Perform(access, Apply(access, items, effects[0]), effects[1..])
  }

  lemma {:induction false} PerformAppend(access: Access, items: map<string, string>, a: seq<Effect>, b: seq<Effect>)
    ensures Perform(access, items, a + b) == Perform(access, Perform(access, items, a), b)
    decreases |a|
  {
    if a == [] {
      assert a + b == b;
    } else {
      assert (a + b)[1..] == a[1..] + b;
      PerformAppend(access, Apply(access, items, a[0]), a[1..], b);
    }
  }

  /** Performing a notification changes no storage. */
  lemma PerformNotification(access: Access, items: map<string, string>, event: string)
    ensures Perform(access, items, [Notified(event)]) == items
  {
    assert [Notified(event)][1..] == [];
  }

  /**
   * The storage contents once the sync effect has gone through for `s`: the visited key holds
   * "true" exactly when `s.hasVisited`; the joined key holds the timestamp exactly when it is truthy;
   * every other key is as it was.
   */
  function Synced(items: map<string, string>, s: JourneyState): (m: map<string, string>)
    ensures VisitedKey in m <==> s.hasVisited
    ensures VisitedKey in m ==> m[VisitedKey] == "true"
    ensures JoinedKey in m <==> HasTimestamp(s)
    ensures JoinedKey in m ==> m[JoinedKey] == s.joinedTimestamp.value
    ensures forall k :: !JourneyKey(k) ==> (k in m <==> k in items) && (k in m ==> m[k] == items[k])
  {
    var m1 := if s.hasVisited then items[VisitedKey := "true"] else items - {VisitedKey};
    if HasTimestamp(s) then m1[JoinedKey := s.joinedTimestamp.value] else m1 - {JoinedKey}
  }

  /** With working storage, performing the sync calls gives exactly `Synced`. */
  lemma PerformSyncCalls(items: map<string, string>, s: JourneyState)
    ensures Perform(Available, items, SyncCalls(s)) == Synced(items, s)
  {
    var calls := SyncCalls(s);
    var m1 := Apply(Available, items, calls[0]);
    var m2 := Apply(Available, m1, calls[1]);
    assert calls[1..][1..] == [];
    assert Perform(Available, items, calls) == Perform(Available, m1, calls[1..]) == m2;
  }

  /** With blocked storage, the sync calls change nothing. */
  lemma PerformSyncCallsBlocked(items: map<string, string>, s: JourneyState)
    ensures Perform(Blocked, items, SyncCalls(s)) == items
  {
    var calls := SyncCalls(s);
    var m1 := Apply(Blocked, items, calls[0]);
    assert m1 == items;
    assert Apply(Blocked, m1, calls[1]) == items;
    assert calls[1..][1..] == [];
    assert Perform(Blocked, items, calls) == Perform(Blocked, m1, calls[1..]) == items;
  }

  /** `Synced` only looks at the two persisted fields. */
  lemma SyncedPersistedOnly(items: map<string, string>, s: JourneyState, r: JourneyState)
    requires s.hasVisited == r.hasVisited && s.joinedTimestamp == r.joinedTimestamp
    ensures Synced(items, s) == Synced(items, r)
  {
  }

  /** Syncing an already synced store changes nothing. */
  lemma SyncedIdempotent(items: map<string, string>, s: JourneyState)
    ensures Synced(Synced(items, s), s) == Synced(items, s)
  {
    var m := Synced(items, s);
    var m2 := Synced(m, s);
    assert forall k :: k in m2 <==> k in m;
    assert forall k :: k in m2 ==> m2[k] == m[k];
  }

  /** Two stores that agree outside the journey keys sync to the same store. */
  lemma SyncedIgnoresJourneyKeys(m1: map<string, string>, m2: map<string, string>, s: JourneyState)
    requires forall k :: !JourneyKey(k) ==> (k in m1 <==> k in m2) && (k in m1 ==> m1[k] == m2[k])
    ensures Synced(m1, s) == Synced(m2, s)
  {
    var a, b := Synced(m1, s), Synced(m2, s);
    assert forall k :: k in a <==> k in b;
    assert forall k :: k in a ==> a[k] == b[k];
  }

  /** The provider only ever writes "true" to the visited key and a non-empty timestamp to the joined key. */
  predicate SafeEffect(e: Effect) {
    match e
    case Wrote(k, v) => (k == VisitedKey && v == "true") || (k == JoinedKey && v != "")
    case Removed(k) => JourneyKey(k)
    case _ => true
  }

  predicate SafeEffects(effects: seq<Effect>) {
    forall i :: 0 <= i < |effects| ==> SafeEffect(effects[i])
  }

  /** Effects that only touch the journey keys leave every other key as it was. */
  lemma {:induction false} PerformKeepsOtherKeys(access: Access, items: map<string, string>, effects: seq<Effect>)
    requires SafeEffects(effects)
    ensures var m := Perform(access, items, effects);
      forall k :: !JourneyKey(k) ==> (k in m <==> k in items) && (k in m ==> m[k] == items[k])
    decreases |effects|
  {
    if effects != [] {
      assert SafeEffect(effects[0]);
      assert SafeEffects(effects[1..]) by {
        forall i | 0 <= i < |effects[1..]| ensures SafeEffect(effects[1..][i]) {
          assert effects[1..][i] == effects[i + 1];
        }
      }
      PerformKeepsOtherKeys(access, Apply(access, items, effects[0]), effects[1..]);
    }
  }

  /** The actions among the effects, in order. */
  function Dispatches(effects: seq<Effect>): seq<Action>
    decreases |effects|
  {
    if effects == [] then []
    else (if effects[0].Dispatched? then [effects[0].action] else []) + Dispatches(effects[1..])
  }

  lemma {:induction false} DispatchesAppend(a: seq<Effect>, b: seq<Effect>)
    ensures Dispatches(a + b) == Dispatches(a) + Dispatches(b)
    decreases |a|
  {
    if a == [] {
      assert a + b == b;
    } else {
      assert (a + b)[0] == a[0];
      assert (a + b)[1..] == a[1..] + b;
      DispatchesAppend(a[1..], b);
      assert Dispatches(a + b) == (if a[0].Dispatched? then [a[0].action] else []) + Dispatches(a[1..] + b);
    }
  }

  /** Effects without a dispatch among them dispatch nothing. */
  lemma {:induction false} DispatchesNone(effects: seq<Effect>)
    requires forall i :: 0 <= i < |effects| ==> !effects[i].Dispatched?
    ensures Dispatches(effects) == []
    decreases |effects|
  {
    if effects != [] {
      assert !effects[0].Dispatched?;
      DispatchesNone(effects[1..]);
    }
  }

  /** What the init effect passes to INITIALIZE: visited iff the stored value is exactly "true". */
  function Restored(kind: Kind, access: Access, items: map<string, string>): (p: Patch)
    requires kind == Memory ==> access == Available
    ensures p.modalState.None? && p.isLoading.None?
    ensures p.hasVisited == Some(access != Blocked && VisitedKey in items && items[VisitedKey] == "true")
    ensures p.joinedTimestamp.Some?
    ensures p.joinedTimestamp.value.Some? <==>
      access != Blocked && JoinedKey in items && (kind != Memory || items[JoinedKey] != "")
    ensures p.joinedTimestamp.value.Some? ==> p.joinedTimestamp.value.value == items[JoinedKey]
  {
    Patch(
      Some(Read(kind, access, items, VisitedKey) == Some("true")),
      Some(Read(kind, access, items, JoinedKey)),
      None,
      None)
  }

  /**
   * Round trip: re-initialising from a store the sync effect wrote reproduces `hasVisited`, and
   * the timestamp whenever it is truthy (an empty timestamp comes back as null).
   */
  lemma SyncThenRestore(kind: Kind, items: map<string, string>, s: JourneyState, current: JourneyState)
    ensures var r := Reduce(current, Initialize(Restored(kind, Available, Synced(items, s))));
      && r.hasVisited == s.hasVisited
      && r.joinedTimestamp == (if HasTimestamp(s) then s.joinedTimestamp else None)
      && r.modalState == current.modalState && r.isLoading == current.isLoading
  {
  }

  /** Storage in the form the sync effect leaves it: visited only as "true", joined only non-empty. */
  predicate Canonical(items: map<string, string>) {
    && (VisitedKey in items ==> items[VisitedKey] == "true")
    && (JoinedKey in items ==> items[JoinedKey] != "")
  }

  /**
   * The other round trip: initialising from working storage and syncing straight back leaves the
   * storage as it was exactly when it is canonical (a stored "false", say, is removed).
   */
  lemma RestoreThenSync(kind: Kind, items: map<string, string>, current: JourneyState)
    ensures var s := Reduce(current, Initialize(Restored(kind, Available, items)));
      Synced(items, s) == items <==> Canonical(items)
  {
    var s := Reduce(current, Initialize(Restored(kind, Available, items)));
    var m := Synced(items, s);
    assert Canonical(m);
    if Canonical(items) {
      forall k ensures (k in m <==> k in items) && (k in m ==> m[k] == items[k]) {
        if k == JoinedKey && JoinedKey in items {
          assert s.joinedTimestamp == Some(items[JoinedKey]);
        }
      }
      assert m == items;
    }
  }

  /**
   * Whether the sync effect runs at a render: never before initialisation, always at the first
   * render after it, and later only when a persisted field changed (the modal state and the
   * loading flag are not among its dependencies).
   */
  function SyncDue(prev: JourneyState, prevInitialized: bool, s: JourneyState, initialized: bool): (due: bool)
    ensures !initialized ==> !due
    ensures initialized && !prevInitialized ==> due
    ensures prevInitialized && prev.hasVisited == s.hasVisited && prev.joinedTimestamp == s.joinedTimestamp ==> !due
    ensures initialized && (prev.hasVisited != s.hasVisited || prev.joinedTimestamp != s.joinedTimestamp) ==> due
  {
    initialized &&
    (!prevInitialized || prev.hasVisited != s.hasVisited || prev.joinedTimestamp != s.joinedTimestamp)
  }

  /**
   * The effects of one render: the sync effect's two calls when it is due, then one report of
   * the new modal state when it changed and someone listens; nothing is ever dispatched.
   */
  function CommitEffects(prev: JourneyState, prevInitialized: bool, s: JourneyState, initialized: bool, observed: bool): (effects: seq<Effect>)
    ensures SafeEffects(effects) && forall i :: 0 <= i < |effects| ==> !effects[i].Dispatched?
    ensures SyncDue(prev, prevInitialized, s, initialized) ==> |effects| >= 2 && effects[..2] == SyncCalls(s)
    ensures !SyncDue(prev, prevInitialized, s, initialized) ==> forall i :: 0 <= i < |effects| ==> effects[i].Notified?
    ensures (|effects| > 0 && effects[|effects| - 1].Notified?) <==> observed && prev.modalState != s.modalState
    ensures |effects| > 0 && effects[|effects| - 1].Notified? ==> effects[|effects| - 1] == Notified(ModalEvent(s.modalState))
  {
    (if SyncDue(prev, prevInitialized, s, initialized) then SyncCalls(s) else [])
    + (if observed && prev.modalState != s.modalState then [Notified(ModalEvent(s.modalState))] else [])
  }

  /** A render's effects never dispatch and only make safe storage calls. */
  lemma CommitEffectsShape(prev: JourneyState, prevInitialized: bool, s: JourneyState, initialized: bool, observed: bool)
    ensures var e := CommitEffects(prev, prevInitialized, s, initialized, observed);
      SafeEffects(e) && Dispatches(e) == [] && forall i :: 0 <= i < |e| ==> !e[i].Dispatched?
  {
    var e := CommitEffects(prev, prevInitialized, s, initialized, observed);
    DispatchesNone(e);
  }

  /** A dispatch or a notification changes no storage. */
  lemma PerformQuiet(access: Access, items: map<string, string>, e: Effect)
    requires e.Dispatched? || e.Notified?
    ensures Perform(access, items, [e]) == items
  {
    assert [e][1..] == [];
  }

  /** Blocked storage ignores every call. */
  lemma {:induction false} PerformBlocked(items: map<string, string>, effects: seq<Effect>)
    ensures Perform(Blocked, items, effects) == items
    decreases |effects|
  {
    if effects != [] {
      assert Apply(Blocked, items, effects[0]) == items;
      PerformBlocked(items, effects[1..]);
    }
  }

  /**
   * SHOW_MODAL and MODAL_READY reach one render together, so that render reports the dialog
   * ready (when it was not already) and never reports it showing.
   */
  lemma BatchedRenderReportsReady(prev: JourneyState, prevInitialized: bool, s: JourneyState, initialized: bool, observed: bool)
    ensures var e := CommitEffects(prev, prevInitialized, Reduce(Reduce(s, ShowModal), ModalReady), initialized, observed);
      && Notified(ModalEvent(Showing)) !in e
      && (Notified(ModalEvent(Ready)) in e <==> observed && prev.modalState != Ready)
  {
  }

  /** Two consecutive stretches of a trace perform, and dispatch, as their concatenation. */
  lemma Chain(access: Access, t0: seq<Effect>, t1: seq<Effect>, t2: seq<Effect>,
              m0: map<string, string>, m1: map<string, string>, m2: map<string, string>)
    requires t0 <= t1 <= t2
    requires m1 == Perform(access, m0, t1[|t0|..]) && m2 == Perform(access, m1, t2[|t1|..])
    ensures m2 == Perform(access, m0, t2[|t0|..])
    ensures Dispatches(t2[|t0|..]) == Dispatches(t1[|t0|..]) + Dispatches(t2[|t1|..])
  {
    assert t2[|t0|..] == t1[|t0|..] + t2[|t1|..];
    PerformAppend(access, m0, t1[|t0|..], t2[|t1|..]);
    DispatchesAppend(t1[|t0|..], t2[|t1|..]);
  }

  /** A single dispatch, as a stretch of trace. */
  lemma DispatchOne(a: Action)
    ensures Dispatches([Dispatched(a)]) == [a]
  {
    assert [Dispatched(a)][1..] == [];
  }

  class Provider {
    const adapter: Adapter
    /** Whether an `onJourneyEvent` callback was given. */
    const observed: bool
    /** The reducer's latest state. */
    var state: JourneyState
    /** The state as of the last render, against which effect dependencies are compared. */
    var rendered: JourneyState
    /** `isInitialized`, latest and as of the last render. */
    var initialized: bool
    var renderedInitialized: bool
    /** Every dispatch, storage call and notification so far. */
    ghost var trace: seq<Effect>

    /**
     * The model assumes the adapter is one of the two adapter classes: the storage context builds
     * one of them when it is given none, and an adapter passed in is assumed to be one of them.
     */
    ghost predicate Valid()
      reads this, adapter
    {
      adapter.Valid() && adapter.kind != Bare && SafeEffects(trace) && initialized
    }

    /** Storage mirrors the rendered state, whenever initialisation has rendered and storage works. */
    ghost predicate InSync()
      reads this, adapter
    {
      renderedInitialized && adapter.access == Available ==> adapter.items == Synced(adapter.items, rendered)
    }

    /**
     * Mounting: the first render shows `initialState`; its effects then run in order: the init
     * effect reads both keys and dispatches INITIALIZE, the sync effect skips (not yet initialised)
     * and the modal effect reports "modal:hidden". Storage is not written.
     */
    constructor (adapter: Adapter, observed: bool)
      requires adapter.Valid() && adapter.kind != Bare
      ensures Valid() && InSync()
      ensures this.adapter == adapter && this.observed == observed
      ensures adapter.items == old(adapter.items)
      ensures rendered == InitialState && !renderedInitialized && initialized
      ensures state == Reduce(InitialState, Initialize(Restored(adapter.kind, adapter.access, adapter.items)))
      ensures trace == [Dispatched(Initialize(Restored(adapter.kind, adapter.access, adapter.items)))]
        + (if observed then [Notified(ModalEvent(Hidden))] else [])
    {
      var visited := adapter.GetItem(VisitedKey);
      var joined := adapter.GetItem(JoinedKey);
      var patch := Patch(Some(visited.value == Some("true")), Some(joined.value), None, None);
      this.adapter := adapter;
      this.observed := observed;
      rendered := InitialState;
      renderedInitialized := false;
      state := Reduce(InitialState, Initialize(patch));
      initialized := true;
      trace := [Dispatched(Initialize(patch))] + (if observed then [Notified(ModalEvent(InitialState.modalState))] else []);
    }

    /** `dispatch(a)`: the reducer runs; nothing renders yet. */
    method Dispatch(a: Action)
      requires Valid()
      modifies this`state, this`trace
      ensures Valid()
      ensures state == Reduce(old(state), a)
      ensures trace == old(trace) + [Dispatched(a)]
      ensures old(trace) <= trace && Dispatches(trace[|old(trace)|..]) == [a]
      ensures adapter.items == Perform(adapter.access, old(adapter.items), trace[|old(trace)|..])
    {
      state := Reduce(state, a);
      trace := trace + [Dispatched(a)];
      assert trace[|old(trace)|..] == [Dispatched(a)];
      DispatchOne(a);
      PerformQuiet(adapter.access, adapter.items, Dispatched(a));
    }

    /** `onJourneyEvent?.(event)`. */
    method Notify(event: string)
      requires Valid()
      modifies this`trace
      ensures Valid()
      ensures trace == old(trace) + (if observed then [Notified(event)] else [])
      ensures old(trace) <= trace && Dispatches(trace[|old(trace)|..]) == []
      ensures adapter.items == Perform(adapter.access, old(adapter.items), trace[|old(trace)|..])
    {
      if observed {
        trace := trace + [Notified(event)];
        assert trace[|old(trace)|..] == [Notified(event)];
        DispatchesNone([Notified(event)]);
        PerformQuiet(adapter.access, adapter.items, Notified(event));
      } else {
        assert trace[|old(trace)|..] == [];
      }
    }

    /** The body of the sync effect: mirror the two persisted fields into storage. */
    method SyncToStorage()
      requires Valid()
      modifies adapter, this`trace
      ensures Valid()
      ensures trace == old(trace) + SyncCalls(state)
      ensures adapter.items == Perform(adapter.access, old(adapter.items), SyncCalls(state))
    {
      ghost var before := adapter.items;
      var r;
      if state.hasVisited {
        r := adapter.SetItem(VisitedKey, "true");
      } else {
        r := adapter.RemoveItem(VisitedKey);
      }
      ghost var middle := adapter.items;
      if state.joinedTimestamp.Some? && state.joinedTimestamp.value != "" {
        r := adapter.SetItem(JoinedKey, state.joinedTimestamp.value);
      } else {
        r := adapter.RemoveItem(JoinedKey);
      }
      trace := trace + SyncCalls(state);
      var calls := SyncCalls(state);
      assert middle == Apply(adapter.access, before, calls[0]);
      assert adapter.items == Apply(adapter.access, middle, calls[1]);
      assert calls[1..][1..] == [];
      assert Perform(adapter.access, before, calls) == Perform(adapter.access, middle, calls[1..])
        == Perform(adapter.access, adapter.items, calls[1..][1..]);
    }

    /** The sync effect of a render: it runs only when `SyncDue`, and leaves storage mirroring `state`. */
    method SyncIfDue() returns (ghost syncPart: seq<Effect>)
      requires Valid()
      modifies adapter, this`trace
      ensures Valid()
      ensures syncPart == if SyncDue(rendered, renderedInitialized, state, initialized) then SyncCalls(state) else []
      ensures trace == old(trace) + syncPart
      ensures adapter.items == Perform(adapter.access, old(adapter.items), syncPart)
      ensures (old(InSync()) || SyncDue(rendered, renderedInitialized, state, initialized)) && adapter.access == Available ==>
        adapter.items == Synced(adapter.items, state)
    {
      ghost var before := adapter.items;
      syncPart := [];
      if SyncDue(rendered, renderedInitialized, state, initialized) {
        SyncToStorage();
        syncPart := SyncCalls(state);
        if adapter.access == Available {
          PerformSyncCalls(before, state);
          SyncedIdempotent(before, state);
        }
      } else {
        if renderedInitialized && adapter.access == Available {
          SyncedPersistedOnly(adapter.items, rendered, state);
        }
        assert Perform(adapter.access, before, syncPart) == before;
      }
    }

    /** One render and the effects whose dependencies changed since the previous one. */
    method Commit()
      requires Valid()
      modifies adapter, this`rendered, this`renderedInitialized, this`trace
      ensures Valid()
      ensures rendered == state && renderedInitialized == initialized
      ensures trace == old(trace) + CommitEffects(old(rendered), old(renderedInitialized), state, initialized, observed)
      ensures adapter.items ==
        Perform(adapter.access, old(adapter.items), CommitEffects(old(rendered), old(renderedInitialized), state, initialized, observed))
      ensures old(InSync()) || SyncDue(old(rendered), old(renderedInitialized), state, initialized) ==> InSync()
      ensures old(trace) <= trace && Dispatches(trace[|old(trace)|..]) == []
      ensures adapter.items == Perform(adapter.access, old(adapter.items), trace[|old(trace)|..])
    {
      var effects := CommitEffects(rendered, renderedInitialized, state, initialized, observed);
      CommitEffectsShape(rendered, renderedInitialized, state, initialized, observed);
      ghost var before := adapter.items;
      ghost var syncPart := SyncIfDue();
      ghost var notePart: seq<Effect> := [];
      if rendered.modalState != state.modalState {
        Notify(ModalEvent(state.modalState));
        if observed {
          notePart := [Notified(ModalEvent(state.modalState))];
        }
      }
      assert effects == syncPart + notePart;
      PerformAppend(adapter.access, before, syncPart, notePart);
      if notePart != [] {
        PerformNotification(adapter.access, Perform(adapter.access, before, syncPart), ModalEvent(state.modalState));
      }
      rendered := state;
      renderedInitialized := initialized;
      assert trace == old(trace) + effects;
      assert trace[|old(trace)|..] == effects;
    }

    /** Removing both journey keys, as `reset` does before anything renders. */
    method RemoveJourneyKeys()
      requires Valid()
      modifies adapter, this`trace
      ensures Valid()
      ensures trace == old(trace) + [Removed(VisitedKey), Removed(JoinedKey)]
      ensures old(trace) <= trace && Dispatches(trace[|old(trace)|..]) == []
      ensures adapter.items == Perform(adapter.access, old(adapter.items), trace[|old(trace)|..])
      ensures adapter.items == Erased(adapter.access, Erased(adapter.access, old(adapter.items), VisitedKey), JoinedKey)
    {
      var r := adapter.RemoveItem(VisitedKey);
      ghost var middle := adapter.items;
      r := adapter.RemoveItem(JoinedKey);
      ghost var calls := [Removed(VisitedKey), Removed(JoinedKey)];
      trace := trace + calls;
      assert trace[|old(trace)|..] == calls;
      assert calls[1..][1..] == [];
      assert Perform(adapter.access, old(adapter.items), calls) == Perform(adapter.access, middle, calls[1..])
        == Perform(adapter.access, adapter.items, calls[1..][1..]);
      DispatchesNone(calls);
    }

    /** The click handler of `joinWatchtower(t)`: START_JOIN, then a render. */
    method BeginJoin()
      requires Valid()
      modifies adapter, this`state, this`rendered, this`renderedInitialized, this`trace
      ensures Valid()
      ensures state == Reduce(old(state), StartJoin) && rendered == state && renderedInitialized
      ensures old(InSync()) ==> InSync()
      ensures old(trace) <= trace && Dispatches(trace[|old(trace)|..]) == [StartJoin]
      ensures adapter.items == Perform(adapter.access, old(adapter.items), trace[|old(trace)|..])
    {
      ghost var t0, m0 := trace, adapter.items;
      Dispatch(StartJoin);
      ghost var t1, m1 := trace, adapter.items;
      Commit();
      Chain(adapter.access, t0, t1, trace, m0, m1, adapter.items);
    }

    /** The first timer of `joinWatchtower`: SHOW_MODAL and MODAL_READY, then one render. */
    method OpenModal()
      requires Valid()
      modifies adapter, this`state, this`rendered, this`renderedInitialized, this`trace
      ensures Valid()
      ensures state == Reduce(Reduce(old(state), ShowModal), ModalReady) && rendered == state && renderedInitialized
      ensures old(InSync()) ==> InSync()
      ensures old(trace) <= trace && Dispatches(trace[|old(trace)|..]) == [ShowModal, ModalReady]
      ensures adapter.items == Perform(adapter.access, old(adapter.items), trace[|old(trace)|..])
    {
      ghost var t0, m0 := trace, adapter.items;
      Dispatch(ShowModal);
      ghost var t1, m1 := trace, adapter.items;
      Dispatch(ModalReady);
      ghost var t2, m2 := trace, adapter.items;
      Chain(adapter.access, t0, t1, t2, m0, m1, m2);
      Commit();
      Chain(adapter.access, t0, t2, trace, m0, m2, adapter.items);
    }

    /** The second timer of `joinWatchtower(t)`: CONFIRM_JOIN, "join:confirmed", then a render. */
    method ConfirmJoining(t: string)
      requires Valid()
      modifies adapter, this`state, this`rendered, this`renderedInitialized, this`trace
      ensures Valid()
      ensures state == Reduce(old(state), ConfirmJoin(t)) && rendered == state && renderedInitialized
      ensures old(InSync()) ==> InSync()
      ensures old(trace) <= trace && Dispatches(trace[|old(trace)|..]) == [ConfirmJoin(t)]
      ensures trace[|old(trace)|] == Dispatched(ConfirmJoin(t))
      ensures observed ==> |trace| > |old(trace)| + 1 && trace[|old(trace)| + 1] == Notified("join:confirmed")
      ensures adapter.items == Perform(adapter.access, old(adapter.items), trace[|old(trace)|..])
    {
      ghost var t0, m0 := trace, adapter.items;
      Dispatch(ConfirmJoin(t));
      ghost var t1, m1 := trace, adapter.items;
      Notify("join:confirmed");
      ghost var t2, m2 := trace, adapter.items;
      Chain(adapter.access, t0, t1, t2, m0, m1, m2);
      Commit();
      Chain(adapter.access, t0, t2, trace, m0, m2, adapter.items);
    }

    /**
     * `joinWatchtower(t)`: the click handler and the two timers, in the order they fire. The
     * dispatches are START_JOIN, SHOW_MODAL, MODAL_READY and CONFIRM_JOIN(t); the state ends
     * joined at `t` with the dialog ready, and storage mirrors it.
     */
    method JoinWatchtower(t: string)
      requires Valid()
      modifies adapter, this`state, this`rendered, this`renderedInitialized, this`trace
      ensures Valid()
      ensures state == Run(old(state), JoinSequence(t))
      ensures state == JourneyState(true, Some(t), Ready, false)
      ensures rendered == state && renderedInitialized
      ensures old(trace) <= trace
      ensures Dispatches(trace[|old(trace)|..]) == JoinSequence(t)
      ensures observed ==> exists i :: (|old(trace)| <= i < |trace| - 1 &&
        trace[i] == Dispatched(ConfirmJoin(t)) && trace[i + 1] == Notified("join:confirmed"))
      ensures adapter.items == Perform(adapter.access, old(adapter.items), trace[|old(trace)|..])
      ensures adapter.access == Available && old(InSync()) ==>
        InSync() && adapter.items == Synced(old(adapter.items), state)
    {
      ghost var t0, m0, s0 := trace, adapter.items, state;
      BeginJoin();
      ghost var t1, m1 := trace, adapter.items;
      OpenModal();
      ghost var t2, m2 := trace, adapter.items;
      Chain(adapter.access, t0, t1, t2, m0, m1, m2);
      ConfirmJoining(t);
      Chain(adapter.access, t0, t2, trace, m0, m2, adapter.items);
      assert observed ==> trace[|t2|] == Dispatched(ConfirmJoin(t)) && trace[|t2| + 1] == Notified("join:confirmed");
      JoinSequenceOutcome(s0, t);
      assert Run(s0, JoinSequence(t)) == Reduce(Reduce(Reduce(Reduce(s0, StartJoin), ShowModal), ModalReady), ConfirmJoin(t)) by {
        RunAppend(s0, [StartJoin], [ShowModal, ModalReady, ConfirmJoin(t)]);
      }
      if adapter.access == Available && old(InSync()) {
        SafeSuffix(trace, |t0|);
        PerformKeepsOtherKeys(adapter.access, m0, trace[|t0|..]);
        SyncedIgnoresJourneyKeys(adapter.items, m0, state);
      }
    }

    /** The click handler of `reset()` before React renders: RESET, then both keys removed at once. */
    method ClearJourney()
      requires Valid()
      modifies adapter, this`state, this`trace
      ensures Valid()
      ensures state == InitialState
      ensures trace == old(trace) + [Dispatched(Action.Reset), Removed(VisitedKey), Removed(JoinedKey)]
      ensures old(trace) <= trace && Dispatches(trace[|old(trace)|..]) == [Action.Reset]
      ensures adapter.items == Perform(adapter.access, old(adapter.items), trace[|old(trace)|..])
      ensures adapter.items ==
        if adapter.access == Blocked then old(adapter.items) else old(adapter.items) - {VisitedKey, JoinedKey}
    {
      ghost var t0, m0 := trace, adapter.items;
      Dispatch(Action.Reset);
      ghost var t1, m1 := trace, adapter.items;
      RemoveJourneyKeys();
      Chain(adapter.access, t0, t1, trace, m0, m1, adapter.items);
      ErasedBoth(adapter.access, m0);
    }

    /** The click handler of `reset()` and the render after it. */
    method BeginReset()
      requires Valid()
      modifies adapter, this`state, this`rendered, this`renderedInitialized, this`trace
      ensures Valid() && InSync()
      ensures state == InitialState && rendered == state && renderedInitialized
      ensures trace == old(trace) + [Dispatched(Action.Reset), Removed(VisitedKey), Removed(JoinedKey)]
        + CommitEffects(old(rendered), old(renderedInitialized), InitialState, true, observed)
      ensures old(trace) <= trace && Dispatches(trace[|old(trace)|..]) == [Action.Reset]
      ensures adapter.items == Perform(adapter.access, old(adapter.items), trace[|old(trace)|..])
      ensures adapter.items ==
        if adapter.access == Blocked then old(adapter.items) else old(adapter.items) - {VisitedKey, JoinedKey}
    {
      ghost var t0, m0 := trace, adapter.items;
      ghost var r0, ri0 := rendered, renderedInitialized;
      ClearJourney();
      ghost var t1, m1 := trace, adapter.items;
      ResetCommitQuiet(adapter.access, m1, r0, ri0, observed);
      Commit();
      Chain(adapter.access, t0, t1, trace, m0, m1, adapter.items);
      if adapter.access != Blocked {
        SyncedWithoutJourneyKeys(adapter.items);
      }
    }

    /**
     * The animation frame of `reset()`: "reset:complete", RESET_COMPLETE, then a render. The frame
     * runs whatever happened since the click: when a pending timer of `joinWatchtower` fired in
     * between, the render's sync effect removes what that timer persisted and reports the dialog
     * hidden again. Right after `BeginReset` the render changes nothing.
     */
    method CompleteReset()
      requires Valid()
      modifies adapter, this`state, this`rendered, this`renderedInitialized, this`trace
      ensures Valid()
      ensures state == InitialState && rendered == state && renderedInitialized
      ensures trace == old(trace) + ResetFrame(observed)
        + CommitEffects(old(rendered), old(renderedInitialized), InitialState, true, observed)
      ensures old(trace) <= trace && Dispatches(trace[|old(trace)|..]) == [ResetComplete]
      ensures adapter.items == Perform(adapter.access, old(adapter.items), trace[|old(trace)|..])
      ensures old(InSync()) || SyncDue(old(rendered), old(renderedInitialized), InitialState, true) ==> InSync()
      ensures old(rendered) == InitialState && old(renderedInitialized) ==> adapter.items == old(adapter.items)
    {
      ghost var t0, m0 := trace, adapter.items;
      Notify("reset:complete");
      ghost var t1, m1 := trace, adapter.items;
      Dispatch(ResetComplete);
      ghost var t2, m2 := trace, adapter.items;
      Chain(adapter.access, t0, t1, t2, m0, m1, m2);
      assert t2 == t0 + ResetFrame(observed);
      Commit();
      Chain(adapter.access, t0, t2, trace, m0, m2, adapter.items);
      if old(rendered) == InitialState && old(renderedInitialized) {
        assert CommitEffects(InitialState, true, InitialState, true, observed) == [];
        Gained(t0, trace, ResetFrame(observed));
        QuietTail(adapter.access, m0, observed);
      }
    }

    /**
     * `reset()`: storage is cleared before RESET_COMPLETE, nothing is written during the reset, and
     * it ends in the initial state with both keys absent.
     */
    method Reset()
      requires Valid()
      modifies adapter, this`state, this`rendered, this`renderedInitialized, this`trace
      ensures Valid() && InSync()
      ensures state == InitialState && rendered == state && renderedInitialized
      ensures old(trace) <= trace && ResetStretch(trace[|old(trace)|..], observed)
      ensures adapter.items == Perform(adapter.access, old(adapter.items), trace[|old(trace)|..])
      ensures adapter.items ==
        if adapter.access == Blocked then old(adapter.items) else old(adapter.items) - {VisitedKey, JoinedKey}
    {
      ghost var t0, m0, r0, ri0 := trace, adapter.items, rendered, renderedInitialized;
      BeginReset();
      ghost var t1, m1 := trace, adapter.items;
      CompleteReset();
      Chain(adapter.access, t0, t1, trace, m0, m1, adapter.items);
      ResetTrace(t0, t1, trace, r0, ri0, observed);
    }
  }

  /** The click handler's effects in `reset()`: RESET, then the two removals. */
  function ResetClick(): seq<Effect> {
    [Dispatched(Action.Reset), Removed(VisitedKey), Removed(JoinedKey)]
  }

  /** The animation frame's effects in `reset()`, before its render. */
  function ResetFrame(observed: bool): seq<Effect> {
    (if observed then [Notified("reset:complete")] else []) + [Dispatched(ResetComplete)]
  }

  /** The effects of `reset()`'s click handler dispatch RESET and nothing else. */
  lemma ResetClickDispatches()
    ensures Dispatches(ResetClick()) == [Action.Reset]
  {
    var removals := [Removed(VisitedKey), Removed(JoinedKey)];
    assert ResetClick() == [Dispatched(Action.Reset)] + removals;
    DispatchesAppend([Dispatched(Action.Reset)], removals);
    DispatchOne(Action.Reset);
    DispatchesNone(removals);
  }

  /** The effects of `reset()`'s animation frame dispatch RESET_COMPLETE and nothing else. */
  lemma ResetFrameDispatches(observed: bool)
    ensures Dispatches(ResetFrame(observed)) == [ResetComplete]
  {
    var notes: seq<Effect> := if observed then [Notified("reset:complete")] else [];
    DispatchesAppend(notes, [Dispatched(ResetComplete)]);
    DispatchesNone(notes);
    DispatchOne(ResetComplete);
  }

  /**
   * What `reset()` promises of its stretch of trace: RESET and both removals first, RESET_COMPLETE
   * last (directly after "reset:complete" when observed), no write anywhere, and no dispatch but
   * those two.
   */
  predicate ResetStretch(seg: seq<Effect>, observed: bool) {
    && |seg| >= 4
    && seg[..3] == [Dispatched(Action.Reset), Removed(VisitedKey), Removed(JoinedKey)]
    && seg[|seg| - 1] == Dispatched(ResetComplete)
    && (observed ==> seg[|seg| - 2] == Notified("reset:complete"))
    && (forall i :: 0 <= i < |seg| ==> !seg[i].Wrote?)
    && Dispatches(seg) == [Action.Reset, ResetComplete]
  }

  /**
   * A reset's stretch of trace, whatever the render between click and frame did (as long as it
   * neither wrote nor dispatched), has the shape `reset()` promises.
   */
  lemma ResetSegment(c1: seq<Effect>, observed: bool)
    requires forall i :: 0 <= i < |c1| ==> !c1[i].Wrote? && !c1[i].Dispatched?
    ensures ResetStretch(ResetClick() + c1 + ResetFrame(observed), observed)
  {
    var click, frame := ResetClick(), ResetFrame(observed);
    var seg := click + c1 + frame;
    forall i | 0 <= i < |seg| ensures !seg[i].Wrote? {
      if 3 <= i < 3 + |c1| {
        assert seg[i] == c1[i - 3];
      }
    }
    ResetClickDispatches();
    ResetFrameDispatches(observed);
    DispatchesNone(c1);
    DispatchesAppend(click, c1);
    DispatchesAppend(click + c1, frame);
  }

  /** A store without the journey keys is already synced for the initial state. */
  lemma SyncedWithoutJourneyKeys(items: map<string, string>)
    requires VisitedKey !in items && JoinedKey !in items
    ensures Synced(items, InitialState) == items
  {
    var m := Synced(items, InitialState);
    assert forall k :: k in m <==> k in items;
    assert forall k :: k in m ==> m[k] == items[k];
  }

  /** The click with its render, then the frame with its render, make a stretch of the shape `reset()` promises. */
  lemma ResetTrace(t0: seq<Effect>, t1: seq<Effect>, t2: seq<Effect>, prev: JourneyState, prevInitialized: bool, observed: bool)
    requires t1 == t0 + ResetClick() + CommitEffects(prev, prevInitialized, InitialState, true, observed)
    requires t2 == t1 + ResetFrame(observed) + CommitEffects(InitialState, true, InitialState, true, observed)
    ensures t0 <= t2 && ResetStretch(t2[|t0|..], observed)
  {
    var c1 := CommitEffects(prev, prevInitialized, InitialState, true, observed);
    ResetCommitQuiet(Blocked, map[], prev, prevInitialized, observed);
    assert CommitEffects(InitialState, true, InitialState, true, observed) == [];
    assert t2 == t0 + (ResetClick() + c1 + ResetFrame(observed));
    Gained(t0, t2, ResetClick() + c1 + ResetFrame(observed));
    ResetSegment(c1, observed);
  }

  /** What a trace gained by appending `extra` is `extra`. */
  lemma Gained(t0: seq<Effect>, t: seq<Effect>, extra: seq<Effect>)
    requires t == t0 + extra
    ensures t0 <= t && t[|t0|..] == extra
  {
  }

  /** The tail of a reset writes no storage. */
  lemma QuietTail(access: Access, items: map<string, string>, observed: bool)
    ensures Perform(access, items, ResetFrame(observed)) == items
  {
    var notes: seq<Effect> := if observed then [Notified("reset:complete")] else [];
    PerformAppend(access, items, notes, [Dispatched(ResetComplete)]);
    if observed {
      PerformQuiet(access, items, Notified("reset:complete"));
    }
    PerformQuiet(access, items, Dispatched(ResetComplete));
  }

  /** Every stretch of a safe trace is safe. */
  lemma SafeSuffix(effects: seq<Effect>, from: nat)
    requires SafeEffects(effects) && from <= |effects|
    ensures SafeEffects(effects[from..])
  {
    forall i | 0 <= i < |effects[from..]| ensures SafeEffect(effects[from..][i]) {
      assert effects[from..][i] == effects[from + i];
    }
  }

  /** Removing both journey keys from working storage leaves the store without them. */
  lemma ErasedBoth(access: Access, items: map<string, string>)
    ensures access != Blocked ==>
      Erased(access, Erased(access, items, VisitedKey), JoinedKey) == items - {VisitedKey, JoinedKey}
    ensures access == Blocked ==> Erased(access, Erased(access, items, VisitedKey), JoinedKey) == items
  {
  }

  /**
   * The render after RESET writes nothing, and on a store without the journey keys its sync
   * calls change nothing.
   */
  lemma ResetCommitQuiet(access: Access, items: map<string, string>, prev: JourneyState, prevInitialized: bool, observed: bool)
    requires (VisitedKey !in items && JoinedKey !in items) || access == Blocked
    ensures var c := CommitEffects(prev, prevInitialized, InitialState, true, observed);
      && (forall i :: 0 <= i < |c| ==> !c[i].Wrote?)
      && Perform(access, items, c) == items
  {
    var c := CommitEffects(prev, prevInitialized, InitialState, true, observed);
    var calls := if SyncDue(prev, prevInitialized, InitialState, true) then SyncCalls(InitialState) else [];
    var notes := if observed && prev.modalState != Hidden then [Notified(ModalEvent(Hidden))] else [];
    assert c == calls + notes;
    PerformAppend(access, items, calls, notes);
    if access == Blocked {
      PerformBlocked(items, c);
    } else {
      if calls != [] {
        assert calls == [Removed(VisitedKey), Removed(JoinedKey)];
        assert Erased(access, items, VisitedKey) == items;
        assert Erased(access, items, JoinedKey) == items;
        assert calls[1..][1..] == [];
        assert Perform(access, items, calls) == Perform(access, items, calls[1..]) == items;
      }
      if notes != [] {
        PerformQuiet(access, items, notes[0]);
      }
    }
  }
}
