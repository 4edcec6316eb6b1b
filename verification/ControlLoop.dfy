/** The fifteen-event control loop: lifecycle actions and packets, lowered to tables end to end. */
module ControlLoop {
  import opened Common
  import opened Lifecycle
  import opened StateGraph
  import opened TransitionTables

  datatype Direction = Tx | Rx

  datatype Event = Do(action: Action) | TxPacket | RxPacket

  function Doing(actions: seq<Action>): (r: seq<Event>)
    ensures |r| == |actions| && forall i :: 0 <= i < |r| ==> r[i] == Do(actions[i])
  {
    seq(|actions|, i requires 0 <= i < |actions| => Do(actions[i]))
  }

  const LIFECYCLE_EVENTS: seq<Event> := Doing(ACTIONS)
  const EVENTS: seq<Event> := LIFECYCLE_EVENTS + [TxPacket, RxPacket]

  datatype Readiness = DeviceNotOpen | DeviceSuspended | CarrierDown | RxIsHalted | TxIsHalted | Ready

  /** `_packet_ready`: the first reason that holds the packet back. */
  function PacketReady(s: State, d: Direction): Readiness {
    if !s.present || !s.bound || !s.isOpen then DeviceNotOpen
    else if s.suspended then DeviceSuspended
    else if !s.carrier then CarrierDown
    else if d == Rx && s.rxHalted then RxIsHalted
    else if d == Tx && s.txHalted then TxIsHalted
    else Ready
  }

  /** On reachable states readiness is carrier without a halt of the packet's own direction. */
  lemma ReadinessOfReachableStates(s: State)
    requires Reachable(s)
    ensures PacketReady(s, Tx) == Ready <==> s.carrier && !s.txHalted
    ensures PacketReady(s, Rx) == Ready <==> s.carrier && !s.rxHalted
  {
    ReachableIffShape(s);
  }

  function EventNext(s: State, e: Event): State {
    if e.Do? then Next(s, e.action) else s
  }

  predicate EventAccepted(s: State, e: Event) {
    match e
    case Do(a) => Permits(s, a)
    case TxPacket => PacketReady(s, Tx) == Ready
    case RxPacket => PacketReady(s, Rx) == Ready
  }

  function EventRun(s: State, run: seq<Event>): Trace<State> {
    if run == [] then Trace(s, [])
    else
      var before := EventRun(s, run[..|run| - 1]);
      var e := run[|run| - 1];
      Trace(EventNext(before.place, e), before.bits + [EventAccepted(before.place, e)])
  }

  // ---- The published graph --------------------------------------------------------------------

  function KeyedRow(e: Edge): Row<Event> {
    Row(StateKey(e.source), Do(e.action), StateKey(e.target), e.accepted)
  }

  function Keys(states: seq<State>): (r: seq<string>)
    ensures |r| == |states| && forall i :: 0 <= i < |r| ==> r[i] == StateKey(states[i])
  {
    seq(|states|, i requires 0 <= i < |states| => StateKey(states[i]))
  }

  /** The `graph` member of the lifecycle receipt. */
  function Published(order: seq<State>, edges: seq<Edge>): Graph<Event> {
    Graph(Keys(order), |order|, seq(|edges|, i requires 0 <= i < |edges| => KeyedRow(edges[i])), |edges|)
  }

  /** The rows of a graph tell the truth about the lifecycle. */
  ghost predicate Faithful(rows: seq<Row<Event>>) {
    forall i :: 0 <= i < |rows| ==> FaithfulRow(rows[i])
  }

  ghost predicate FaithfulRow(row: Row<Event>) {
    exists s, a :: Shape(s) && row == KeyedRow(EdgeOf(s, a))
  }

  lemma KeysInjective(s: State, t: State)
    requires StateKey(s) == StateKey(t)
    ensures s == t
  {
    KeyRoundTrip(s);
    KeyRoundTrip(t);
  }

  lemma LifecycleEventListed(a: Action)
    ensures Do(a) in LIFECYCLE_EVENTS
  {
    ActionsListed(a);
    var k :| 0 <= k < 13 && ACTIONS[k] == a;
    assert LIFECYCLE_EVENTS[k] == Do(a);
  }

  lemma RowSource(order: seq<State>, j: nat)
    requires j < 13 * |order|
    ensures j / 13 < |order| && EdgesOf(order)[j] == EdgeOf(order[j / 13], ACTIONS[j % 13])
  {
    RowAt(order, j / 13, j % 13, j);
  }

  lemma RowAt(order: seq<State>, i: nat, k: nat, j: nat)
    requires i < |order| && k < 13 && j == 13 * i + k
    ensures EdgesOf(order)[j] == EdgeOf(order[i], ACTIONS[k])
  {
    EdgeAt(order, i, k);
  }

  ghost predicate ListsShapes(listed: seq<State>) {
    Distinct(listed) && forall s :: s in listed <==> Shape(s)
  }

  lemma PublishedIds(listed: seq<State>)
    requires ListsShapes(listed)
    ensures Distinct(Keys(listed)) && forall id :: id in Keys(listed) ==> GoodKey(id)
  {
    forall i | 0 <= i < |listed|
      ensures GoodKey(Keys(listed)[i])
    {
      KeyRoundTrip(listed[i]);
    }
    forall i, j | 0 <= i < j < |listed|
      ensures Keys(listed)[i] != Keys(listed)[j]
    {
      if Keys(listed)[i] == Keys(listed)[j] { KeysInjective(listed[i], listed[j]); }
    }
  }

  lemma PublishedRow(listed: seq<State>, order: seq<State>, j: nat)
    requires ListsShapes(listed) && ListsShapes(order) && j < 13 * |order|
    ensures
      var row := Published(listed, EdgesOf(order)).rows[j];
      RowInside(row, Keys(listed), LIFECYCLE_EVENTS) && FaithfulRow(row)
  {
    RowSource(order, j);
    PublishedRowInside(listed, order[j / 13], ACTIONS[j % 13]);
  }

  lemma PublishedKeysDistinct(listed: seq<State>, order: seq<State>, i: nat, j: nat)
    requires ListsShapes(order) && i < j < 13 * |order|
    ensures
      var rows := Published(listed, EdgesOf(order)).rows;
      KeyOf(rows[i]) != KeyOf(rows[j])
  {
    RowSource(order, i);
    RowSource(order, j);
    if StateKey(order[i / 13]) == StateKey(order[j / 13]) && ACTIONS[i % 13] == ACTIONS[j % 13] {
      KeysInjective(order[i / 13], order[j / 13]);
      ActionsDistinct(i % 13, j % 13);
    }
  }

  /** What the explorer publishes passes validation and is faithful, in whatever order it is listed. */
  lemma PublishedIsWellFormed(listed: seq<State>, order: seq<State>)
    requires ListsShapes(listed) && ListsShapes(order) && |order| == |listed|
    ensures WellFormed(Published(listed, EdgesOf(order)), LIFECYCLE_EVENTS)
    ensures Faithful(Published(listed, EdgesOf(order)).rows)
  {
    PublishedIds(listed);
    var rows := Published(listed, EdgesOf(order)).rows;
    forall j | 0 <= j < |rows|
      ensures RowInside(rows[j], Keys(listed), LIFECYCLE_EVENTS) && FaithfulRow(rows[j])
    {
      PublishedRow(listed, order, j);
    }
    forall i, j | 0 <= i < j < |rows|
      ensures KeyOf(rows[i]) != KeyOf(rows[j])
    {
      PublishedKeysDistinct(listed, order, i, j);
    }
  }

  lemma PublishedRowInside(order: seq<State>, s: State, a: Action)
    requires (forall t :: t in order <==> Shape(t)) && s in order
    ensures RowInside(KeyedRow(EdgeOf(s, a)), Keys(order), LIFECYCLE_EVENTS)
  {
    NextKeepsShape(s, a);
    LifecycleEventListed(a);
    var i :| 0 <= i < |order| && order[i] == s;
    var j :| 0 <= j < |order| && order[j] == Next(s, a);
    assert Keys(order)[i] == StateKey(s) && Keys(order)[j] == StateKey(Next(s, a));
  }

  // ---- Matrices that mirror the state machine -------------------------------------------------

  /** Every cell of every reachable state says what the state machine does. */
  ghost predicate Mirrors(v: Validated<Event>, events: seq<Event>) {
    && Total(v, events)
    && (forall s :: Shape(s) ==> StateKey(s) in v.ids)
    && forall s, e :: Shape(s) && e in events ==>
         (StateKey(s), e) in v.matrix
         && v.matrix[(StateKey(s), e)] == Cell(StateKey(EventNext(s, e)), EventAccepted(s, e))
  }

  /** A faithful graph that validates has no choice but to mirror the lifecycle. */
  lemma FaithfulGraphMirrors(v: Validated<Event>, rows: seq<Row<Event>>)
    requires Total(v, LIFECYCLE_EVENTS) && Records(v.matrix, rows) && Faithful(rows)
    requires forall s :: Shape(s) ==> StateKey(s) in v.ids
    ensures Mirrors(v, LIFECYCLE_EVENTS)
  {
    forall s, e | Shape(s) && e in LIFECYCLE_EVENTS
      ensures (StateKey(s), e) in v.matrix
      ensures v.matrix[(StateKey(s), e)] == Cell(StateKey(EventNext(s, e)), EventAccepted(s, e))
    {
      assert Filled(v.matrix, v.ids, StateKey(s), e);
      assert HasKey(rows, (StateKey(s), e));
      var i :| 0 <= i < |rows| && KeyOf(rows[i]) == (StateKey(s), e);
      assert FaithfulRow(rows[i]);
      var t, a :| Shape(t) && rows[i] == KeyedRow(EdgeOf(t, a));
      KeysInjective(s, t);
    }
  }

  ghost predicate ColumnsDone(m: Matrix<Event>, v: Validated<Event>, id: string)
    requires Total(v, LIFECYCLE_EVENTS) && id in v.ids
  {
    && GoodKey(id)
    && (forall e :: e in LIFECYCLE_EVENTS ==> (id, e) in m && m[(id, e)] == CellAt(v, LIFECYCLE_EVENTS, id, e))
    && (id, TxPacket) in m && m[(id, TxPacket)] == Cell(id, PacketReady(StateFromKey(id).value, Tx) == Ready)
    && (id, RxPacket) in m && m[(id, RxPacket)] == Cell(id, PacketReady(StateFromKey(id).value, Rx) == Ready)
  }

  ghost predicate SameElsewhere(m: Matrix<Event>, before: Matrix<Event>, id: string) {
    forall key: (string, Event) :: key.0 != id ==>
      (key in m <==> key in before) && (key in before ==> m[key] == before[key])
  }

  method AddColumns(before: Matrix<Event>, v: Validated<Event>, id: string) returns (m: Matrix<Event>)
    requires Total(v, LIFECYCLE_EVENTS) && id in v.ids
    ensures ColumnsDone(m, v, id) && SameElsewhere(m, before, id)
  {
    m := before;
    var k := 0;
    while k < |LIFECYCLE_EVENTS|
      invariant 0 <= k <= |LIFECYCLE_EVENTS|
      invariant forall j :: 0 <= j < k ==>
                  (id, LIFECYCLE_EVENTS[j]) in m
                  && m[(id, LIFECYCLE_EVENTS[j])] == CellAt(v, LIFECYCLE_EVENTS, id, LIFECYCLE_EVENTS[j])
      invariant SameElsewhere(m, before, id)
    {
      m := m[(id, LIFECYCLE_EVENTS[k]) := CellAt(v, LIFECYCLE_EVENTS, id, LIFECYCLE_EVENTS[k])];
      k := k + 1;
    }
    var state := StateFromKey(id).value;
    m := m[(id, TxPacket) := Cell(id, PacketReady(state, Tx) == Ready)];
    m := m[(id, RxPacket) := Cell(id, PacketReady(state, Rx) == Ready)];
  }

  /** `_event_matrix`: the lifecycle columns are copied, the packet columns computed from the key. */
  method EventMatrix(v: Validated<Event>) returns (w: Validated<Event>)
    requires Total(v, LIFECYCLE_EVENTS)
    ensures w.ids == v.ids && Total(w, EVENTS)
    ensures forall id :: id in v.ids ==> ColumnsDone(w.matrix, v, id)
  {
    var matrix: Matrix<Event> := map[];
    var i := 0;
    while i < |v.ids|
      invariant 0 <= i <= |v.ids|
      invariant forall j :: 0 <= j < i ==> ColumnsDone(matrix, v, v.ids[j])
    {
      var grown := AddColumns(matrix, v, v.ids[i]);
      forall j | 0 <= j < i
        ensures ColumnsDone(grown, v, v.ids[j])
      {
      }
      matrix := grown;
      i := i + 1;
    }
    w := Validated(v.ids, matrix);
  }

  lemma EventMatrixMirrors(v: Validated<Event>, w: Validated<Event>)
    requires Mirrors(v, LIFECYCLE_EVENTS) && w.ids == v.ids && Total(w, EVENTS)
    requires forall id :: id in v.ids ==> ColumnsDone(w.matrix, v, id)
    ensures Mirrors(w, EVENTS)
  {
    forall s, e | Shape(s) && e in EVENTS
      ensures (StateKey(s), e) in w.matrix
      ensures w.matrix[(StateKey(s), e)] == Cell(StateKey(EventNext(s, e)), EventAccepted(s, e))
    {
      var id := StateKey(s);
      KeyRoundTrip(s);
      assert ColumnsDone(w.matrix, v, id);
      match e
      case Do(a) =>
        LifecycleEventListed(a);
        assert w.matrix[(id, e)] == CellAt(v, LIFECYCLE_EVENTS, id, e);
      case TxPacket =>
      case RxPacket =>
    }
  }

  /** A run of a mirroring matrix is the run of the state machine, seen through the keys. */
  lemma {:induction false} MatrixRunMirrors(v: Validated<Event>, events: seq<Event>, s: State, run: seq<Event>)
    requires Mirrors(v, events) && Shape(s) && forall i :: 0 <= i < |run| ==> run[i] in events
    ensures Shape(EventRun(s, run).place)
    ensures MatrixRun(v, events, StateKey(s), run)
            == Trace(StateKey(EventRun(s, run).place), EventRun(s, run).bits)
  {
    if run != [] {
      var n := |run| - 1;
      MatrixRunMirrors(v, events, s, run[..n]);
      var before := EventRun(s, run[..n]);
      if run[n].Do? { NextKeepsShape(before.place, run[n].action); }
    }
  }

  /** The tables of a mirroring matrix, run from the initial index, track the state machine for ever. */
  ghost predicate Tracks(t: Tables, ids: seq<string>, events: seq<Event>) {
    && StateKey(INITIAL) in ids && Shaped(t, |ids|, |events|)
    && forall run :: InRange(run, |events|) ==> TracksRun(t, ids, events, run)
  }

  ghost predicate TracksRun(t: Tables, ids: seq<string>, events: seq<Event>, run: seq<nat>)
    requires StateKey(INITIAL) in ids && Shaped(t, |ids|, |events|) && InRange(run, |events|)
  {
    var wanted := EventRun(INITIAL, Named(events, run));
    Follows(CRun(t, |ids|, |events|, IndexOf(ids, StateKey(INITIAL)), run),
            Trace(StateKey(wanted.place), wanted.bits), ids)
  }

  lemma MirroringTablesTrack(t: Tables, v: Validated<Event>, events: seq<Event>)
    requires Mirrors(v, events) && Lowers(t, v, events)
    ensures Tracks(t, v.ids, events)
  {
    assert Shape(INITIAL);
    forall run | InRange(run, |events|)
      ensures TracksRun(t, v.ids, events, run)
    {
      CRunRefinesMatrix(t, v, events, IndexOf(v.ids, StateKey(INITIAL)), run);
      MatrixRunMirrors(v, events, INITIAL, Named(events, run));
    }
  }

  /**
   * Explore, publish, validate, synthesise: both generated programs follow the Python state machine
   * over every event sequence of any length, and validation never rejects the explorer's own graph.
   */
  method LowerEverything() returns (ids: seq<string>, lifecycle: Tables, control: Tables)
    ensures |ids| == 13
    ensures Tracks(lifecycle, ids, LIFECYCLE_EVENTS)
    ensures Tracks(control, ids, EVENTS)
  {
    var states, edges, accepted, refused, order := ExploreStateGraph();
    var listed := ListStates(states);
    forall s
      ensures s in order <==> Shape(s)
      ensures s in listed <==> Shape(s)
    {
      ReachableIffShape(s);
      assert s in order <==> s in SetOf(order);
      assert s in listed <==> s in SetOf(listed);
    }
    DistinctCount(order);
    DistinctCount(listed);
    var g := Published(listed, edges);
    PublishedIsWellFormed(listed, order);
    var r := ValidatedGraph(g, LIFECYCLE_EVENTS);
    var v := r.value;
    SortKeepsIds(g.stateIds);
    SameMembers(v.ids, g.stateIds);
    forall s | Shape(s)
      ensures StateKey(s) in v.ids
    {
      var i :| 0 <= i < |listed| && listed[i] == s;
      assert g.stateIds[i] == StateKey(s);
    }
    FaithfulGraphMirrors(v, g.rows);
    lifecycle := Synthesize(v, LIFECYCLE_EVENTS);
    MirroringTablesTrack(lifecycle, v, LIFECYCLE_EVENTS);
    var w := EventMatrix(v);
    EventMatrixMirrors(v, w);
    control := Synthesize(w, EVENTS);
    MirroringTablesTrack(control, w, EVENTS);
    ids := v.ids;
  }

  /** The comprehension that turns the set of states into the rows of the receipt. */
  method ListStates(states: set<State>) returns (listed: seq<State>)
    ensures Distinct(listed) && SetOf(listed) == states
  {
    listed := [];
    var rest := states;
    while rest != {}
      invariant Distinct(listed) && SetOf(listed) + rest == states && SetOf(listed) !! rest
      decreases |rest|
    {
      var s :| s in rest;
      listed, rest := listed + [s], rest - {s};
    }
  }
}
