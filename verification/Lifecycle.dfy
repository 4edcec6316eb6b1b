/** The smsc95xx/usbnet lifecycle shadow: one frozen state, one transition function. */
module Lifecycle {
  import opened Common

  datatype State = State(
    present: bool, bound: bool, isOpen: bool, suspended: bool,
    carrier: bool, rxHalted: bool, txHalted: bool, disconnected: bool)

  const INITIAL := State(false, false, false, false, false, false, false, false)

  datatype Action =
    | ProbeSuccess | OpenSuccess | Stop | LinkUp | LinkDown | RxHalt | RecoverRx
    | TxHalt | RecoverTx | LinkReset | Suspend | ResumeSuccess | Disconnect

  const ACTIONS: seq<Action> :=
    [ProbeSuccess, OpenSuccess, Stop, LinkUp, LinkDown, RxHalt, RecoverRx,
     TxHalt, RecoverTx, LinkReset, Suspend, ResumeSuccess, Disconnect]

  lemma ActionsListed(a: Action)
    ensures a in ACTIONS
  {
    match a
    case ProbeSuccess => assert ACTIONS[0] == a;
    case OpenSuccess => assert ACTIONS[1] == a;
    case Stop => assert ACTIONS[2] == a;
    case LinkUp => assert ACTIONS[3] == a;
    case LinkDown => assert ACTIONS[4] == a;
    case RxHalt => assert ACTIONS[5] == a;
    case RecoverRx => assert ACTIONS[6] == a;
    case TxHalt => assert ACTIONS[7] == a;
    case RecoverTx => assert ACTIONS[8] == a;
    case LinkReset => assert ACTIONS[9] == a;
    case Suspend => assert ACTIONS[10] == a;
    case ResumeSuccess => assert ACTIONS[11] == a;
    case Disconnect => assert ACTIONS[12] == a;
  }

  predicate ValidState(s: State) {
    && (s.bound ==> s.present)
    && (s.isOpen ==> s.bound)
    && (s.carrier ==> s.isOpen && !s.suspended)
    && (s.rxHalted || s.txHalted ==> s.isOpen && !s.suspended)
    && (s.disconnected ==> s == INITIAL.(disconnected := true))
  }

  predicate Awake(s: State) { s.isOpen && !s.suspended }

  /** The guard of each branch, in source order. */
  predicate Permits(s: State, a: Action) {
    match a
    case ProbeSuccess => !s.present
    case OpenSuccess => s.present && s.bound && !s.isOpen && !s.suspended
    case Stop => Awake(s)
    case LinkUp => Awake(s)
    case LinkDown => Awake(s)
    case RxHalt => Awake(s)
    case RecoverRx => s.rxHalted && !s.suspended
    case TxHalt => Awake(s)
    case RecoverTx => s.txHalted && !s.suspended
    case LinkReset => Awake(s)
    case Suspend => s.present && s.bound && !s.suspended
    case ResumeSuccess => s.suspended
    case Disconnect => s.present
  }

  function Effect(s: State, a: Action): State {
    match a
    case ProbeSuccess => INITIAL.(present := true, bound := true)
    case OpenSuccess => s.(isOpen := true)
    case Stop => s.(isOpen := false, carrier := false, rxHalted := false, txHalted := false)
    case LinkUp => s.(carrier := true)
    case LinkDown => s.(carrier := false)
    case RxHalt => s.(rxHalted := true)
    case RecoverRx => s.(rxHalted := false)
    case TxHalt => s.(txHalted := true)
    case RecoverTx => s.(txHalted := false)
    case LinkReset => s.(rxHalted := false, txHalted := false)
    case Suspend => s.(suspended := true, carrier := false, rxHalted := false, txHalted := false)
    case ResumeSuccess => s.(suspended := false, carrier := false, rxHalted := false, txHalted := false)
    case Disconnect => INITIAL.(disconnected := true)
  }

  datatype Step = Step(state: State, accepted: bool)
  datatype LifecycleError = InvalidResult

  /** `transition`: a refused action returns the state it was given, and the result is re-validated. */
  function Transition(s: State, a: Action): Result<Step, LifecycleError> {
    var accepted := Permits(s, a);
    var result := if accepted then Effect(s, a) else s;
    if ValidState(result) then Ok(Step(result, accepted)) else Err(InvalidResult)
  }

  /** Where the source ends up after one action from a valid state. */
  function Next(s: State, a: Action): State {
    if Permits(s, a) then Effect(s, a) else s
  }

  /** `ValidState` is inductive, so the invalid-state exception never fires from a valid state. */
  lemma TransitionNeverRaises(s: State, a: Action)
    requires ValidState(s)
    ensures Transition(s, a) == Ok(Step(Next(s, a), Permits(s, a)))
    ensures ValidState(Next(s, a))
  {
    match a
    case ProbeSuccess => case OpenSuccess => case Stop => case LinkUp => case LinkDown => case RxHalt =>
    case RecoverRx => case TxHalt => case RecoverTx => case LinkReset => case Suspend => case ResumeSuccess =>
    case Disconnect =>
  }

  // ---- Runs -----------------------------------------------------------------------------------

  function Run(actions: seq<Action>): State {
    if actions == [] then INITIAL
    else Next(Run(actions[..|actions| - 1]), actions[|actions| - 1])
  }

  lemma {:induction false} RunsAreValid(actions: seq<Action>)
    ensures ValidState(Run(actions))
  {
    if actions != [] {
      RunsAreValid(actions[..|actions| - 1]);
      TransitionNeverRaises(Run(actions[..|actions| - 1]), actions[|actions| - 1]);
    }
  }

  /** The actions of a run that were accepted, in order. */
  function Accepted(actions: seq<Action>): seq<Action> {
    if actions == [] then []
    else
      var before := actions[..|actions| - 1];
      var a := actions[|actions| - 1];
      Accepted(before) + (if Permits(Run(before), a) then [a] else [])
  }

  /** The parts of the state that move together. */
  datatype Flag = Presence | Opening | Sleeping | CarrierFlag | RxFlag | TxFlag

  predicate Touches(a: Action, f: Flag) {
    match f
    case Presence => a.ProbeSuccess? || a.Disconnect?
    case Opening => a.OpenSuccess? || a.Stop? || a.Disconnect? || a.ProbeSuccess?
    case Sleeping => a.Suspend? || a.ResumeSuccess? || a.Disconnect? || a.ProbeSuccess?
    case CarrierFlag => a.LinkUp? || a.LinkDown? || Resets(a)
    case RxFlag => a.RxHalt? || a.RecoverRx? || a.LinkReset? || Resets(a)
    case TxFlag => a.TxHalt? || a.RecoverTx? || a.LinkReset? || Resets(a)
  }

  predicate Resets(a: Action) {
    a.Stop? || a.Suspend? || a.ResumeSuccess? || a.Disconnect? || a.ProbeSuccess?
  }

  function LastTouch(log: seq<Action>, f: Flag): Option<Action> {
    if log == [] then None
    else if Touches(log[|log| - 1], f) then Some(log[|log| - 1])
    else LastTouch(log[..|log| - 1], f)
  }

  /** The whole state, reconstructed from nothing but the log of accepted actions. */
  function FromHistory(log: seq<Action>): State {
    State(
      LastTouch(log, Presence) == Some(ProbeSuccess),
      LastTouch(log, Presence) == Some(ProbeSuccess),
      LastTouch(log, Opening) == Some(OpenSuccess),
      LastTouch(log, Sleeping) == Some(Suspend),
      LastTouch(log, CarrierFlag) == Some(LinkUp),
      LastTouch(log, RxFlag) == Some(RxHalt),
      LastTouch(log, TxFlag) == Some(TxHalt),
      LastTouch(log, Presence) == Some(Disconnect))
  }

  lemma HistorySnoc(log: seq<Action>, a: Action)
    requires ValidState(FromHistory(log)) && Permits(FromHistory(log), a)
    ensures FromHistory(log + [a]) == Effect(FromHistory(log), a)
  {
  }

  /** Every flag of every run says which accepted action of its own group came last. */
  lemma {:induction false} HistoryDeterminesState(actions: seq<Action>)
    ensures Run(actions) == FromHistory(Accepted(actions))
  {
    if actions != [] {
      var before := actions[..|actions| - 1];
      var a := actions[|actions| - 1];
      HistoryDeterminesState(before);
      RunsAreValid(before);
      if Permits(Run(before), a) {
        HistorySnoc(Accepted(before), a);
      } else {
        assert Accepted(actions) == Accepted(before);
      }
    }
  }

  /** Removing the refused actions from a run changes nothing: they are accepted in full and end alike. */
  lemma {:induction false} RefusedActionsAreInert(actions: seq<Action>)
    ensures Run(Accepted(actions)) == Run(actions)
    ensures Accepted(Accepted(actions)) == Accepted(actions)
  {
    if actions != [] {
      var before := actions[..|actions| - 1];
      var a := actions[|actions| - 1];
      RefusedActionsAreInert(before);
      if Permits(Run(before), a) {
        assert (Accepted(before) + [a])[..|Accepted(before)|] == Accepted(before);
      } else {
        assert Accepted(actions) == Accepted(before);
      }
    }
  }

  // ---- Reachability ---------------------------------------------------------------------------

  ghost predicate Reachable(s: State) {
    exists actions :: Run(actions) == s
  }

  /** Closed form: fresh, gone, bound and idle, or open and awake with any mix of link and halts. */
  predicate Shape(s: State) {
    || s == INITIAL
    || s == INITIAL.(disconnected := true)
    || (s.present && s.bound && !s.disconnected
        && (Awake(s) || (!s.carrier && !s.rxHalted && !s.txHalted)))
  }

  /** A run that reaches a given shape. */
  function PathTo(s: State): seq<Action>
    requires Shape(s)
  {
    if s == INITIAL then []
    else if s.disconnected then [ProbeSuccess, Disconnect]
    else [ProbeSuccess]
         + (if s.isOpen then [OpenSuccess] else [])
         + (if s.suspended then [Suspend] else [])
         + (if s.carrier then [LinkUp] else [])
         + (if s.rxHalted then [RxHalt] else [])
         + (if s.txHalted then [TxHalt] else [])
  }

  function Bound(isOpen: bool, suspended: bool, carrier: bool, rxHalted: bool, txHalted: bool): State {
    State(true, true, isOpen, suspended, carrier, rxHalted, txHalted, false)
  }

  /** One optional leg of a path. */
  lemma Leg(path: seq<Action>, taken: bool, a: Action)
    ensures Run(path + if taken then [a] else []) == if taken then Next(Run(path), a) else Run(path)
  {
    if !taken { assert path + [] == path; }
  }

  lemma PathReaches(s: State)
    requires Shape(s)
    ensures Run(PathTo(s)) == s
  {
    assert [] + [ProbeSuccess] == [ProbeSuccess];
    if s.disconnected {
      assert [ProbeSuccess] + [Disconnect] == PathTo(s);
    } else if s.present {
      BoundPathReaches(s);
    }
  }

  lemma BoundPathReaches(s: State)
    requires Shape(s) && s.present
    ensures Run(PathTo(s)) == s
  {
    var p0 := [ProbeSuccess];
    assert Run(p0) == Bound(false, false, false, false, false) by {
      assert [] + [ProbeSuccess] == p0;
    }
    var p1 := p0 + if s.isOpen then [OpenSuccess] else [];
    Leg(p0, s.isOpen, OpenSuccess);
    assert Run(p1) == Bound(s.isOpen, false, false, false, false);
    var p2 := p1 + if s.suspended then [Suspend] else [];
    Leg(p1, s.suspended, Suspend);
    assert Run(p2) == Bound(s.isOpen, s.suspended, false, false, false);
    var p3 := p2 + if s.carrier then [LinkUp] else [];
    Leg(p2, s.carrier, LinkUp);
    assert Run(p3) == Bound(s.isOpen, s.suspended, s.carrier, false, false);
    var p4 := p3 + if s.rxHalted then [RxHalt] else [];
    Leg(p3, s.rxHalted, RxHalt);
    assert Run(p4) == Bound(s.isOpen, s.suspended, s.carrier, s.rxHalted, false);
    Leg(p4, s.txHalted, TxHalt);
  }

  lemma {:induction false} RunsStayInShape(actions: seq<Action>)
    ensures Shape(Run(actions))
  {
    if actions != [] {
      RunsStayInShape(actions[..|actions| - 1]);
      NextKeepsShape(Run(actions[..|actions| - 1]), actions[|actions| - 1]);
    }
  }

  lemma NextKeepsShape(s: State, a: Action)
    requires Shape(s)
    ensures Shape(Next(s, a)) && ValidState(s)
  {}

  /** The reachable states are exactly the closed form. */
  lemma ReachableIffShape(s: State)
    ensures Reachable(s) <==> Shape(s)
  {
    if Shape(s) {
      PathReaches(s);
    }
    if Reachable(s) {
      var actions :| Run(actions) == s;
      RunsStayInShape(actions);
    }
  }

  // ---- The thirteen shapes, numbered ----------------------------------------------------------

  function ShapeAt(i: nat): State
    requires i < 13
  {
    if i == 0 then INITIAL
    else if i == 1 then INITIAL.(disconnected := true)
    else if i < 5 then Bound(i == 4, i != 2, false, false, false)
    else Bound(true, false, i >= 9, (i - 5) / 2 % 2 == 1, (i - 5) % 2 == 1)
  }

  function ShapeIndex(s: State): (i: nat)
    requires Shape(s)
    ensures i < 13
  {
    if s == INITIAL then 0
    else if s.disconnected then 1
    else if Awake(s) then
      5 + (if s.carrier then 4 else 0) + (if s.rxHalted then 2 else 0) + (if s.txHalted then 1 else 0)
    else if s.isOpen then 4
    else if s.suspended then 3
    else 2
  }

  lemma ShapesNumbered(i: nat)
    requires i < 13
    ensures Shape(ShapeAt(i)) && ShapeIndex(ShapeAt(i)) == i
  {}

  const SHAPES: seq<State> := seq(13, i requires 0 <= i < 13 => ShapeAt(i))

  /** There are thirteen of them. */
  lemma ThirteenShapes()
    ensures Distinct(SHAPES) && |SetOf(SHAPES)| == 13
    ensures forall s :: s in SetOf(SHAPES) <==> Shape(s)
  {
    forall i, j | 0 <= i < j < 13
      ensures SHAPES[i] != SHAPES[j]
    {
      ShapesNumbered(i);
      ShapesNumbered(j);
    }
    DistinctCount(SHAPES);
    forall s
      ensures s in SetOf(SHAPES) <==> Shape(s)
    {
      if Shape(s) {
        assert SHAPES[ShapeIndex(s)] == s;
      }
      if s in SHAPES {
        var i :| 0 <= i < 13 && SHAPES[i] == s;
        ShapesNumbered(i);
      }
    }
  }
}
