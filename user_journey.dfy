/**
 * The visitor state machine of src/state/userJourney.ts: the journey state, its nine actions,
 * the initial state, the storage keys and the total reducer.
 */
module UserJourney {
  import opened Wrappers

  /** The four stages of the join dialog. */
  datatype ModalState = Hidden | Showing | Ready | Closing

  /** The string each modal state is in the source's union type. */
  function ModalName(m: ModalState): string {
    match m
    case Hidden => "hidden"
    case Showing => "showing"
    case Ready => "ready"
    case Closing => "closing"
  }

  /**
   * `hasVisited` and `joinedTimestamp` are persisted; `modalState` and `isLoading` are transient.
   * A null `joinedTimestamp` is `None`.
   */
  datatype JourneyState = JourneyState(
    hasVisited: bool,
    joinedTimestamp: Option<string>,
    modalState: ModalState,
    isLoading: bool)

  /** `Partial<UserJourneyState>`: a field is `Some` exactly when the object has that property. */
  datatype Patch = Patch(
    hasVisited: Option<bool>,
    joinedTimestamp: Option<Option<string>>,
    modalState: Option<ModalState>,
    isLoading: Option<bool>)

  /**
   * The nine declared actions, and `Unrecognized` for an action object whose `type` is none of
   * them (the `default` branch of the reducer's switch).
   */
  datatype Action =
    | Initialize(patch: Patch)
    | StartJoin
    | ShowModal
    | ModalReady
    | ConfirmJoin(timestamp: string)
    | CloseModal
    | ModalHidden
    | Reset
    | ResetComplete
    | Unrecognized(tag: string)

  const InitialState := JourneyState(false, None, Hidden, false)

  /** The two keys of `STORAGE_KEYS`. */
  const VisitedKey := "fact.rip.visited"
  const JoinedKey := "fact.rip.joined"

  /** The fields of the state, to say which ones an action may touch. */
  datatype Field = HasVisited | JoinedTimestamp | Modal | Loading

  /** True when the two states hold the same value in field `f`. */
  predicate Agree(s: JourneyState, r: JourneyState, f: Field) {
    match f
    case HasVisited => s.hasVisited == r.hasVisited
    case JoinedTimestamp => s.joinedTimestamp == r.joinedTimestamp
    case Modal => s.modalState == r.modalState
    case Loading => s.isLoading == r.isLoading
  }

  /** The fields a patch carries. */
  function Present(p: Patch): set<Field> {
    (if p.hasVisited.Some? then {HasVisited} else {})
    + (if p.joinedTimestamp.Some? then {JoinedTimestamp} else {})
    + (if p.modalState.Some? then {Modal} else {})
    + (if p.isLoading.Some? then {Loading} else {})
  }

  /** The fields each case of the reducer's switch sets. */
  function Touched(a: Action): set<Field> {
    match a
    case Initialize(p) => Present(p)
    case StartJoin => {Loading}
    case ShowModal => {Loading, Modal}
    case ModalReady => {Modal}
    case ConfirmJoin(_) => {HasVisited, JoinedTimestamp, Modal}
    case CloseModal => {Modal}
    case ModalHidden => {Modal}
    case Reset => {HasVisited, JoinedTimestamp, Modal, Loading}
    case ResetComplete => {HasVisited, JoinedTimestamp, Modal, Loading}
    case Unrecognized(_) => {}
  }

  /** `{ ...state, ...patch }`: every property the patch has overrides, the others are kept. */
  function Merge(s: JourneyState, p: Patch): (r: JourneyState)
    ensures p.hasVisited.Some? ==> r.hasVisited == p.hasVisited.value
    ensures p.joinedTimestamp.Some? ==> r.joinedTimestamp == p.joinedTimestamp.value
    ensures p.modalState.Some? ==> r.modalState == p.modalState.value
    ensures p.isLoading.Some? ==> r.isLoading == p.isLoading.value
    ensures forall f :: f !in Present(p) ==> Agree(s, r, f)
  {
    JourneyState(
      p.hasVisited.GetOr(s.hasVisited),
      p.joinedTimestamp.GetOr(s.joinedTimestamp),
      p.modalState.GetOr(s.modalState),
      p.isLoading.GetOr(s.isLoading))
  }

  /** `userJourneyReducer`: total, with the effect of each action on the fields it touches. */
  function Reduce(s: JourneyState, a: Action): (r: JourneyState)
    ensures forall f :: f !in Touched(a) ==> Agree(s, r, f)
    ensures a.Initialize? ==> r == Merge(s, a.patch)
    ensures a.StartJoin? ==> r.isLoading
    ensures a.ShowModal? ==> !r.isLoading && r.modalState == Showing
    ensures a.ModalReady? ==> r.modalState == Ready
    ensures a.ConfirmJoin? ==>
      r.hasVisited && r.joinedTimestamp == Some(a.timestamp) && r.modalState == Ready
    ensures a.CloseModal? ==> r.modalState == Closing
    ensures a.ModalHidden? ==> r.modalState == Hidden
    ensures a.Reset? || a.ResetComplete? ==> r == InitialState
    ensures a.Unrecognized? ==> r == s
  {
    match a
    case Initialize(p) => Merge(s, p)
    case StartJoin => s.(isLoading := true)
    case ShowModal => s.(isLoading := false, modalState := Showing)
    case ModalReady => s.(modalState := Ready)
    case ConfirmJoin(t) => s.(hasVisited := true, joinedTimestamp := Some(t), modalState := Ready)
    case CloseModal => s.(modalState := Closing)
    case ModalHidden => s.(modalState := Hidden)
    case Reset => InitialState.(modalState := Hidden)
    case ResetComplete => InitialState
    case Unrecognized(_) => s
  }

  /** The state after dispatching `acts` in order, starting from `s`. */
  function Run(s: JourneyState, acts: seq<Action>): JourneyState
    decreases |acts|
  {
    if acts == [] then s else Run(Reduce(s, acts[0]), acts[1..])
  }

  /** Dispatching `a` and then `b` is dispatching their concatenation. */
  lemma {:induction false} RunAppend(s: JourneyState, a: seq<Action>, b: seq<Action>)
    ensures Run(s, a + b) == Run(Run(s, a), b)
    decreases |a|
  {
    if a == [] {
      assert a + b == b;
    } else {
      assert (a + b)[1..] == a[1..] + b;
      RunAppend(Reduce(s, a[0]), a[1..], b);
    }
  }

  /** A field that no action of the run touches keeps its value over the whole run. */
  lemma {:induction false} RunFrame(s: JourneyState, acts: seq<Action>, f: Field)
    requires forall i :: 0 <= i < |acts| ==> f !in Touched(acts[i])
    ensures Agree(s, Run(s, acts), f)
    decreases |acts|
  {
    if acts != [] {
      var s1 := Reduce(s, acts[0]);
      assert f !in Touched(acts[0]);
      assert forall i :: 0 <= i < |acts[1..]| ==> acts[1..][i] == acts[i + 1];
      RunFrame(s1, acts[1..], f);
    }
  }

  /** Two starting states that agree on field `f` end a run of the same actions agreeing on `f`. */
  lemma {:induction false} RunFieldNonInterference(s1: JourneyState, s2: JourneyState, acts: seq<Action>, f: Field)
    requires Agree(s1, s2, f)
    ensures Agree(Run(s1, acts), Run(s2, acts), f)
    decreases |acts|
  {
    if acts != [] {
      var a := acts[0];
      var r1, r2 := Reduce(s1, a), Reduce(s2, a);
      if f !in Touched(a) {
        assert Agree(s1, r1, f) && Agree(s2, r2, f);
      } else {
        match a
        case Initialize(p) =>
        case StartJoin =>
        case ShowModal =>
        case ModalReady =>
        case ConfirmJoin(_) =>
        case CloseModal =>
        case ModalHidden =>
        case Reset =>
        case ResetComplete =>
      }
      assert Agree(r1, r2, f);
      RunFieldNonInterference(r1, r2, acts[1..], f);
    }
  }

  /** Whatever came before, a run that ends with RESET_COMPLETE ends in the initial state. */
  lemma {:induction false} RunEndingInResetComplete(s: JourneyState, acts: seq<Action>)
    ensures Run(s, acts + [ResetComplete]) == InitialState
  {
    RunAppend(s, acts, [ResetComplete]);
  }

  /** The four actions joinWatchtower dispatches, in order. */
  function JoinSequence(t: string): seq<Action> {
    [StartJoin, ShowModal, ModalReady, ConfirmJoin(t)]
  }

  /** From any state the join sequence ends joined, with the dialog ready and nothing loading. */
  lemma JoinSequenceOutcome(s: JourneyState, t: string)
    ensures Run(s, JoinSequence(t)) ==
      JourneyState(true, Some(t), Ready, false)
  {
    var s1 := Reduce(s, StartJoin);
    var s2 := Reduce(s1, ShowModal);
    var s3 := Reduce(s2, ModalReady);
    var s4 := Reduce(s3, ConfirmJoin(t));
    var acts := JoinSequence(t);
    assert acts[1..] == [ShowModal, ModalReady, ConfirmJoin(t)];
    assert acts[1..][1..] == [ModalReady, ConfirmJoin(t)];
    assert acts[1..][1..][1..] == [ConfirmJoin(t)];
    assert acts[1..][1..][1..][1..] == [];
    assert Run(s, acts) == Run(s1, [ShowModal, ModalReady, ConfirmJoin(t)]);
    assert Run(s1, [ShowModal, ModalReady, ConfirmJoin(t)]) == Run(s2, [ModalReady, ConfirmJoin(t)]);
    assert Run(s2, [ModalReady, ConfirmJoin(t)]) == Run(s3, [ConfirmJoin(t)]);
    assert Run(s3, [ConfirmJoin(t)]) == Run(s4, []) == s4;
  }
}
