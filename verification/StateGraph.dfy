/** Breadth-first exploration of the lifecycle, and the eight-bit names its states carry. */
module StateGraph {
  import opened Common
  import opened Lifecycle

  datatype Edge = Edge(source: State, action: Action, target: State, accepted: bool)

  function EdgeOf(s: State, a: Action): Edge {
    Edge(s, a, Next(s, a), Permits(s, a))
  }

  /** The rows one state contributes, one for each action in turn. */
  function EdgesFrom(s: State, n: nat): (rows: seq<Edge>)
    requires n <= |ACTIONS|
    ensures |rows| == n
  {
    seq(n, k requires 0 <= k < n => EdgeOf(s, ACTIONS[k]))
  }

  function EdgesOf(order: seq<State>): (rows: seq<Edge>)
    ensures |rows| == 13 * |order|
  {
    if order == [] then []
    else EdgesOf(order[..|order| - 1]) + EdgesFrom(order[|order| - 1], |ACTIONS|)
  }

  function AcceptedIn(rows: seq<Edge>): nat {
    if rows == [] then 0
    else AcceptedIn(rows[..|rows| - 1]) + if rows[|rows| - 1].accepted then 1 else 0
  }

  /** One more row: the listing and its tally grow by the edge of the next action. */
  lemma RowAdded(listed: seq<Edge>, rows: seq<Edge>, s: State, a: Action, k: nat)
    requires k < |ACTIONS| && ACTIONS[k] == a && rows == listed + EdgesFrom(s, k)
    ensures rows + [EdgeOf(s, a)] == listed + EdgesFrom(s, k + 1)
    ensures AcceptedIn(rows + [EdgeOf(s, a)]) == AcceptedIn(rows) + if Permits(s, a) then 1 else 0
  {
    assert EdgesFrom(s, k + 1) == EdgesFrom(s, k) + [EdgeOf(s, a)];
    assert (rows + [EdgeOf(s, a)])[..|rows|] == rows;
  }

  /** A closed set that contains the initial state contains every run. */
  lemma {:induction false} ClosedContainsRuns(states: set<State>, actions: seq<Action>)
    requires INITIAL in states
    requires forall s, a :: s in states ==> Next(s, a) in states
    ensures Run(actions) in states
  {
    if actions != [] {
      ClosedContainsRuns(states, actions[..|actions| - 1]);
      assert Next(Run(actions[..|actions| - 1]), actions[|actions| - 1]) in states;
    }
  }

  /** Row (i, k) of the listing is the edge that state i takes under action k. */
  lemma {:induction false} EdgeAt(order: seq<State>, i: nat, k: nat)
    requires i < |order| && k < |ACTIONS|
    ensures 13 * i + k < |EdgesOf(order)|
    ensures EdgesOf(order)[13 * i + k] == EdgeOf(order[i], ACTIONS[k])
  {
    var before := order[..|order| - 1];
    if i < |order| - 1 {
      EdgeAt(before, i, k);
    }
  }

  predicate IsRowOf(order: seq<State>, j: int, s: State, a: Action) {
    && 0 <= j < |EdgesOf(order)|
    && EdgesOf(order)[j].source == s
    && EdgesOf(order)[j].action == a
  }

  /** No (state, action) pair is recorded twice, and none is missed. */
  lemma EdgesExactlyOnce(order: seq<State>, s: State, a: Action)
    requires Distinct(order) && s in order
    ensures exists j :: 0 <= j < |EdgesOf(order)| && EdgesOf(order)[j] == EdgeOf(s, a)
    ensures forall j, j' :: IsRowOf(order, j, s, a) && IsRowOf(order, j', s, a) ==> j == j'
  {
    var rows := EdgesOf(order);
    var i :| 0 <= i < |order| && order[i] == s;
    ActionsListed(a);
    var k :| 0 <= k < |ACTIONS| && ACTIONS[k] == a;
    EdgeAt(order, i, k);
    forall j | IsRowOf(order, j, s, a)
      ensures j == 13 * i + k
    {
      var i', k' := j / 13, j % 13;
      assert j == 13 * i' + k';
      EdgeAt(order, i', k');
      ActionsDistinct(k, k');
    }
  }

  lemma ActionsDistinct(k: nat, k': nat)
    requires k < |ACTIONS| && k' < |ACTIONS| && ACTIONS[k] == ACTIONS[k']
    ensures k == k'
  {
    CodeOf(k);
    CodeOf(k');
  }

  lemma CodeOf(k: nat)
    requires k < |ACTIONS|
    ensures Code(ACTIONS[k]) == k
  {
    if k < 7 {
      if k < 3 { assert k == 0 || k == 1 || k == 2; } else { assert k == 3 || k == 4 || k == 5 || k == 6; }
    } else {
      if k < 10 { assert k == 7 || k == 8 || k == 9; } else { assert k == 10 || k == 11 || k == 12; }
    }
  }

  function Code(a: Action): nat {
    match a
    case ProbeSuccess => 0
    case OpenSuccess => 1
    case Stop => 2
    case LinkUp => 3
    case LinkDown => 4
    case RxHalt => 5
    case RecoverRx => 6
    case TxHalt => 7
    case RecoverTx => 8
    case LinkReset => 9
    case Suspend => 10
    case ResumeSuccess => 11
    case Disconnect => 12
  }

  /** What the worklist knows between two states: `order` has been expanded, `queue` is still to come. */
  ghost predicate Explored(order: seq<State>, queue: seq<State>, states: set<State>) {
    && Known(order, queue, states)
    && (forall s, a :: s in order ==> Next(s, a) in states)
  }

  ghost predicate Known(order: seq<State>, queue: seq<State>, states: set<State>) {
    && Distinct(order + queue)
    && states == SetOf(order + queue)
    && INITIAL in states
    && (forall s :: s in states ==> Shape(s))
  }

  lemma OrderBounded(order: seq<State>, queue: seq<State>, states: set<State>)
    requires Known(order, queue, states)
    ensures |order| + |queue| <= 13
  {
    DistinctCount(order + queue);
    ThirteenShapes();
    SubsetSize(states, SetOf(SHAPES));
  }

  lemma KnownGrows(order: seq<State>, queue: seq<State>, states: set<State>, t: State)
    requires Known(order, queue, states) && t !in states && Shape(t)
    ensures Known(order, queue + [t], states + {t})
  {
    assert order + (queue + [t]) == (order + queue) + [t];
  }

  datatype Frontier = Frontier(queue: seq<State>, states: set<State>)

  function Visit(f: Frontier, t: State): Frontier {
    if t in f.states then f else Frontier(f.queue + [t], f.states + {t})
  }

  /** The frontier after the first `k` actions of state `s` have been followed. */
  function VisitAll(f: Frontier, s: State, k: nat): Frontier
    requires k <= |ACTIONS|
  {
    if k == 0 then f else Visit(VisitAll(f, s, k - 1), Next(s, ACTIONS[k - 1]))
  }

  lemma {:induction false} VisitAllKeepsKnown(order: seq<State>, f: Frontier, s: State, k: nat)
    requires k <= |ACTIONS| && Known(order, f.queue, f.states) && Shape(s)
    ensures Known(order, VisitAll(f, s, k).queue, VisitAll(f, s, k).states)
    ensures f.states <= VisitAll(f, s, k).states
    ensures forall i :: 0 <= i < k ==> Next(s, ACTIONS[i]) in VisitAll(f, s, k).states
  {
    if k != 0 {
      VisitAllKeepsKnown(order, f, s, k - 1);
      var g := VisitAll(f, s, k - 1);
      var t := Next(s, ACTIONS[k - 1]);
      NextKeepsShape(s, ACTIONS[k - 1]);
      if t !in g.states { KnownGrows(order, g.queue, g.states, t); }
    }
  }

  /** Taking one state off the queue and following all its actions keeps the search on course. */
  lemma ExpandKeepsExplored(order: seq<State>, queue: seq<State>, states: set<State>)
    requires Explored(order, queue, states) && queue != []
    ensures |order| < 13 && Shape(queue[0])
    ensures
      var f := VisitAll(Frontier(queue[1..], states), queue[0], |ACTIONS|);
      Explored(order + [queue[0]], f.queue, f.states)
  {
    OrderBounded(order, queue, states);
    var s := queue[0];
    assert s in order + queue;
    assert (order + [s]) + queue[1..] == order + queue;
    VisitAllKeepsKnown(order + [s], Frontier(queue[1..], states), s, |ACTIONS|);
    var reached := VisitAll(Frontier(queue[1..], states), s, |ACTIONS|).states;
    forall t, a | t in order + [s]
      ensures Next(t, a) in reached
    {
      ActionsListed(a);
      var i :| 0 <= i < |ACTIONS| && ACTIONS[i] == a;
      if t in order { assert Next(t, a) in states; }
    }
  }

  /** An empty queue means the search is complete. */
  lemma ExplorationComplete(order: seq<State>, states: set<State>)
    requires Explored(order, [], states)
    ensures forall s :: s in states <==> Reachable(s)
    ensures |states| == |order| == 13
    ensures Distinct(order) && SetOf(order) == states
  {
    assert order + [] == order;
    forall s
      ensures s in states <==> Reachable(s)
      ensures s in states <==> s in SetOf(SHAPES)
    {
      ThirteenShapes();
      ReachableIffShape(s);
      if Reachable(s) {
        var actions :| Run(actions) == s;
        ClosedContainsRuns(states, actions);
      }
    }
    assert states == SetOf(SHAPES);
    ThirteenShapes();
    DistinctCount(order);
  }

  lemma StepTaken(s: State, a: Action)
    requires Shape(s)
    ensures Transition(s, a) == Ok(Step(Next(s, a), Permits(s, a)))
  {
    NextKeepsShape(s, a);
    TransitionNeverRaises(s, a);
  }

  /** The loop over the actions of one state: each is followed, tallied, and what it reaches joins the queue if new. */
  method FollowActions(s: State, actions: seq<Action>, frontier: Frontier, listed: seq<Edge>)
    returns (f: Frontier, rows: seq<Edge>, newlyAccepted: nat, newlyRefused: nat)
    requires Shape(s) && actions == ACTIONS
    ensures f == VisitAll(frontier, s, |actions|)
    ensures rows == listed + EdgesFrom(s, |actions|)
    ensures AcceptedIn(rows) == AcceptedIn(listed) + newlyAccepted && newlyAccepted + newlyRefused == |actions|
  {
    f, rows, newlyAccepted, newlyRefused := frontier, listed, 0, 0;
    var k := 0;
    while k < |actions|
      invariant 0 <= k <= |actions|
      invariant f == VisitAll(frontier, s, k)
      invariant rows == listed + EdgesFrom(s, k)
      invariant AcceptedIn(rows) == AcceptedIn(listed) + newlyAccepted && newlyAccepted + newlyRefused == k
    {
      var a := actions[k];
      StepTaken(s, a);
      var step := Transition(s, a).value;
      RowAdded(listed, rows, s, a, k);
      rows := rows + [Edge(s, a, step.state, step.accepted)];
      if step.accepted {
        newlyAccepted := newlyAccepted + 1;
      } else {
        newlyRefused := newlyRefused + 1;
      }
      if step.state !in f.states {
        f := Frontier(f.queue + [step.state], f.states + {step.state});
      }
      k := k + 1;
    }
  }

  /** The worklist loop of the source; `order` is the order in which states leave the queue. */
  method ExploreStateGraph()
    returns (states: set<State>, rows: seq<Edge>, acceptedCount: nat, refusedCount: nat, ghost order: seq<State>)
    ensures forall s :: s in states <==> Reachable(s)
    ensures |states| == 13
    ensures Distinct(order) && SetOf(order) == states && rows == EdgesOf(order)
    ensures acceptedCount == AcceptedIn(rows)
    ensures acceptedCount + refusedCount == |rows| == 169
  {
    var queue := [INITIAL];
    states, rows, acceptedCount, refusedCount, order := {INITIAL}, [], 0, 0, [];
    while queue != []
      invariant Explored(order, queue, states)
      invariant rows == EdgesOf(order)
      invariant acceptedCount == AcceptedIn(rows)
      invariant acceptedCount + refusedCount == |rows|
      decreases 13 - |order|
    {
      ExpandKeepsExplored(order, queue, states);
      order := order + [queue[0]];
      var f, listed, newlyAccepted, newlyRefused := FollowActions(queue[0], ACTIONS, Frontier(queue[1..], states), rows);
      queue, states, rows := f.queue, f.states, listed;
      acceptedCount, refusedCount := acceptedCount + newlyAccepted, refusedCount + newlyRefused;
    }
    ExplorationComplete(order, states);
  }

  // ---- State keys -----------------------------------------------------------------------------

  function Digit(b: bool): char { if b then '1' else '0' }

  /** `_state_key`: the eight flags in field order, one character each. */
  function StateKey(s: State): string {
    [Digit(s.present), Digit(s.bound), Digit(s.isOpen), Digit(s.suspended),
     Digit(s.carrier), Digit(s.rxHalted), Digit(s.txHalted), Digit(s.disconnected)]
  }

  predicate GoodKey(key: string) {
    |key| == 8 && forall i :: 0 <= i < 8 ==> key[i] in {'0', '1'}
  }

  datatype KeyError = MalformedKey

  /** `_state_from_id`. */
  function StateFromKey(key: string): Result<State, KeyError> {
    if !GoodKey(key) then Err(MalformedKey)
    else Ok(State(key[0] == '1', key[1] == '1', key[2] == '1', key[3] == '1',
                  key[4] == '1', key[5] == '1', key[6] == '1', key[7] == '1'))
  }

  lemma KeyRoundTrip(s: State)
    ensures GoodKey(StateKey(s)) && StateFromKey(StateKey(s)) == Ok(s)
  {}

  lemma KeyOfDecoded(key: string)
    requires GoodKey(key)
    ensures StateKey(StateFromKey(key).value) == key
  {
    forall i | 0 <= i < 8
      ensures Digit(key[i] == '1') == key[i]
    {
      assert key[i] in {'0', '1'};
    }
  }

  /** A key decodes exactly when it is the key of some state, and then of the state it decodes to. */
  lemma DecodeRoundTrip(key: string)
    ensures StateFromKey(key).Ok? <==> exists s :: StateKey(s) == key
    ensures StateFromKey(key).Ok? ==> StateKey(StateFromKey(key).value) == key
  {
    if GoodKey(key) { KeyOfDecoded(key); }
    if s :| StateKey(s) == key {
      KeyRoundTrip(s);
    }
  }
}
