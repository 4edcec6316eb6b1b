/** The userspace event emulator, the integrated C pipeline, and their agreement over every mixed run. */
module EventEmulator {
  import opened Common
  import opened Lifecycle
  import opened StateGraph
  import opened TransitionTables
  import opened ControlLoop
  import opened PacketFraming
  import opened Bits

  datatype Input = Act(action: Action) | Transmit(length: int, checksum: bool) | Receive(length: int, error: bool)

  datatype Reply =
    | Moved(accepted: bool)
    | Held(reason: Readiness)
    | Sent(framing: TxFrame)
    | Received(decoded: RxFrame)
    | Raised

  datatype Counts = Counts(
    events: nat, lifecycleAccepted: nat, lifecycleRefused: nat,
    txAdmitted: nat, txRefused: nat, rxAdmitted: nat, rxRefused: nat)

  const ZERO := Counts(0, 0, 0, 0, 0, 0, 0)

  /** The offsets the emulator passes when it asks for a checksum. */
  function ChecksumFor(requested: bool): Option<Checksum> {
    if requested then Some(Checksum(14, 2)) else None
  }

  function StatusWord(length: nat, error: bool): nat { 0x10000 * length + if error then 0x8000 else 0 }

  /** What the caller gets back, as a function of the state alone. */
  function ReplyTo(s: State, e: Input): Reply {
    match e
    case Act(a) => Moved(Permits(s, a))
    case Transmit(length, checksum) =>
      if PacketReady(s, Tx) != Ready then Held(PacketReady(s, Tx))
      else if GoodLength(length) then Sent(Framed(length, ChecksumFor(checksum)))
      else Raised
    case Receive(length, error) =>
      if !(0 <= length <= 0x3FFF) then Raised
      else if PacketReady(s, Rx) != Ready then Held(PacketReady(s, Rx))
      else Received(RxFrame(length, error, 6, Padding(length), true))
  }

  function StateAfter(s: State, e: Input): State {
    if e.Act? then Next(s, e.action) else s
  }

  /** An RX length outside the status field raises before the event is counted; a TX length only after. */
  function CountsAfter(c: Counts, s: State, e: Input): Counts {
    var reply := ReplyTo(s, e);
    if e.Receive? && reply.Raised? then c
    else
      var counted := c.(events := c.events + 1);
      match reply
      case Moved(accepted) =>
        if accepted then counted.(lifecycleAccepted := c.lifecycleAccepted + 1)
        else counted.(lifecycleRefused := c.lifecycleRefused + 1)
      case Held(_) =>
        if e.Transmit? then counted.(txRefused := c.txRefused + 1) else counted.(rxRefused := c.rxRefused + 1)
      case Sent(_) => counted.(txAdmitted := c.txAdmitted + 1)
      case Received(_) => counted.(rxAdmitted := c.rxAdmitted + 1)
      case Raised => counted
  }

  lemma StatusWordDecodes(length: nat, error: bool)
    requires length <= 0x3FFF
    ensures StatusWord(length, error) < UINT32
    ensures Decoded(StatusWord(length, error), length) == RxFrame(length, error, 6, Padding(length), true)
  {
    DivUnique(StatusWord(length, error), 2 * 0x8000, length, (if error then 1 else 0) * 0x8000);
    DivUnique(StatusWord(length, error), 0x8000, 2 * length + (if error then 1 else 0), 0);
    DivUnique(length, 0x4000, 0, length);
  }

  class UsbNetEventEmulator {
    var state: State
    var counts: Counts

    constructor ()
      ensures state == INITIAL && counts == ZERO
    {
      state, counts := INITIAL, ZERO;
    }

    method Lifecycle(action: Action) returns (r: Reply)
      requires ValidState(state)
      modifies this
      ensures r == ReplyTo(old(state), Act(action))
      ensures state == StateAfter(old(state), Act(action)) && ValidState(state)
      ensures counts == CountsAfter(old(counts), old(state), Act(action))
    {
      TransitionNeverRaises(state, action);
      var step := Transition(state, action).value;
      state := step.state;
      counts := counts.(events := counts.events + 1);
      if step.accepted {
        counts := counts.(lifecycleAccepted := counts.lifecycleAccepted + 1);
      } else {
        counts := counts.(lifecycleRefused := counts.lifecycleRefused + 1);
      }
      r := Moved(step.accepted);
    }

    method Tx(length: int, checksum: bool) returns (r: Reply)
      modifies this`counts
      ensures r == ReplyTo(state, Transmit(length, checksum))
      ensures counts == CountsAfter(old(counts), state, Transmit(length, checksum))
    {
      var ready := PacketReady(state, Direction.Tx);
      counts := counts.(events := counts.events + 1);
      if ready != Ready {
        counts := counts.(txRefused := counts.txRefused + 1);
        return Held(ready);
      }
      var framing := ModelTxFrame(length, if checksum then Some(14) else None, if checksum then Some(2) else None);
      if framing.Err? {
        return Raised;
      }
      counts := counts.(txAdmitted := counts.txAdmitted + 1);
      r := Sent(framing.value);
    }

    method Rx(length: int, error: bool) returns (r: Reply)
      modifies this`counts
      ensures r == ReplyTo(state, Receive(length, error))
      ensures counts == CountsAfter(old(counts), state, Receive(length, error))
    {
      if !(0 <= length <= 0x3FFF) {
        return Raised;
      }
      var ready := PacketReady(state, Direction.Rx);
      counts := counts.(events := counts.events + 1);
      if ready != Ready {
        counts := counts.(rxRefused := counts.rxRefused + 1);
        return Held(ready);
      }
      StatusWordDecodes(length, error);
      var decoded := DecodeRxStatus(StatusWord(length, error), length);
      counts := counts.(rxAdmitted := counts.rxAdmitted + 1);
      r := Received(decoded.value);
    }
  }

  // ---- Whole runs of the emulator -------------------------------------------------------------

  datatype Session = Session(state: State, counts: Counts, replies: seq<Reply>)

  function Emulate(inputs: seq<Input>): Session {
    if inputs == [] then Session(INITIAL, ZERO, [])
    else
      var before := Emulate(inputs[..|inputs| - 1]);
      var e := inputs[|inputs| - 1];
      Session(StateAfter(before.state, e), CountsAfter(before.counts, before.state, e),
              before.replies + [ReplyTo(before.state, e)])
  }

  function Outcomes(c: Counts): nat {
    c.lifecycleAccepted + c.lifecycleRefused + c.txAdmitted + c.txRefused + c.rxAdmitted + c.rxRefused
  }

  /** The frames whose framing raised after the event had been counted. */
  function LostFrames(inputs: seq<Input>): nat {
    if inputs == [] then 0
    else
      var e := inputs[|inputs| - 1];
      LostFrames(inputs[..|inputs| - 1])
      + if e.Transmit? && ReplyTo(Emulate(inputs[..|inputs| - 1]).state, e).Raised? then 1 else 0
  }

  /** Every counted event has exactly one outcome, except a frame that was admitted and could not be framed. */
  lemma {:induction false} EventsAreConserved(inputs: seq<Input>)
    ensures Emulate(inputs).counts.events == Outcomes(Emulate(inputs).counts) + LostFrames(inputs)
    ensures |Emulate(inputs).replies| == |inputs|
  {
    if inputs != [] {
      var before := Emulate(inputs[..|inputs| - 1]);
      EventsAreConserved(inputs[..|inputs| - 1]);
      OneOutcome(before.counts, before.state, inputs[|inputs| - 1]);
    }
  }

  /** One event: counted and given one outcome, or a frame lost after counting, or not counted at all. */
  lemma OneOutcome(c: Counts, s: State, e: Input)
    ensures
      var after := CountsAfter(c, s, e);
      after.events + Outcomes(c) == c.events + Outcomes(after) + if e.Transmit? && ReplyTo(s, e).Raised? then 1 else 0
  {}

  predicate GoodLengths(inputs: seq<Input>) {
    forall i :: 0 <= i < |inputs| ==> inputs[i].Transmit? ==> GoodLength(inputs[i].length)
  }

  /** The counters balance on every run whose TX lengths fit the eleven-bit field. */
  lemma {:induction false} GoodLengthsLoseNothing(inputs: seq<Input>)
    requires GoodLengths(inputs)
    ensures LostFrames(inputs) == 0
  {
    if inputs != [] { GoodLengthsLoseNothing(inputs[..|inputs| - 1]); }
  }

  /** Event n is a transmit of a length that cannot be framed, sent while TX is ready. */
  ghost predicate LosesFrame(inputs: seq<Input>, n: nat)
    requires n < |inputs|
  {
    && inputs[n].Transmit? && !GoodLength(inputs[n].length)
    && PacketReady(Emulate(inputs[..n]).state, Tx) == Ready
  }

  lemma {:induction false} LostFramesIff(inputs: seq<Input>)
    ensures LostFrames(inputs) == 0 <==> forall n :: 0 <= n < |inputs| ==> !LosesFrame(inputs, n)
  {
    if inputs != [] {
      var last := |inputs| - 1;
      LostFramesIff(inputs[..last]);
      forall n | 0 <= n < last
        ensures LosesFrame(inputs, n) <==> LosesFrame(inputs[..last], n)
      {
        assert inputs[..last][..n] == inputs[..n];
      }
      assert LosesFrame(inputs, last)
             <==> inputs[last].Transmit? && ReplyTo(Emulate(inputs[..last]).state, inputs[last]).Raised?;
    }
  }

  /** The counters balance exactly when no unframeable length is transmitted while TX is ready. */
  lemma CountersBalanceIff(inputs: seq<Input>)
    ensures Emulate(inputs).counts.events == Outcomes(Emulate(inputs).counts)
            <==> forall n :: 0 <= n < |inputs| ==> !LosesFrame(inputs, n)
  {
    EventsAreConserved(inputs);
    LostFramesIff(inputs);
  }

  /** Four events, three outcomes: an empty frame sent on a link that is up. */
  lemma EmptyFrameIsLost(up: seq<Input>)
    requires up == [Act(ProbeSuccess), Act(OpenSuccess), Act(LinkUp)]
    ensures
      var c := Emulate(up + [Transmit(0, false)]).counts;
      c.events == 4 && Outcomes(c) == 3
  {
    UpStep(up, 0);
    UpStep(up, 1);
    UpStep(up, 2);
    assert up[..3] == up && Emulate(up).state == State(true, true, true, false, true, false, false, false);
    assert (up + [Transmit(0, false)])[..3] == up;
  }

  /** One accepted action more. */
  lemma UpStep(inputs: seq<Input>, n: nat)
    requires n < |inputs| && inputs[n].Act? && Permits(Emulate(inputs[..n]).state, inputs[n].action)
    ensures Emulate(inputs[..n + 1]).state == Next(Emulate(inputs[..n]).state, inputs[n].action)
    ensures
      var before, after := Emulate(inputs[..n]).counts, Emulate(inputs[..n + 1]).counts;
      after == before.(events := before.events + 1, lifecycleAccepted := before.lifecycleAccepted + 1)
  {
    assert inputs[..n + 1][..n] == inputs[..n];
  }

  function ActionsOf(inputs: seq<Input>): seq<Action> {
    if inputs == [] then []
    else
      var e := inputs[|inputs| - 1];
      ActionsOf(inputs[..|inputs| - 1]) + if e.Act? then [e.action] else []
  }

  /** Packets never move the state: it is that of the lifecycle run with every packet deleted. */
  lemma {:induction false} PacketsLeaveTheStateAlone(inputs: seq<Input>)
    ensures Emulate(inputs).state == Run(ActionsOf(inputs))
  {
    if inputs != [] {
      var before := inputs[..|inputs| - 1];
      PacketsLeaveTheStateAlone(before);
      if inputs[|inputs| - 1].Act? {
      } else {
        assert ActionsOf(inputs) == ActionsOf(before);
      }
    }
  }

  /**
   * A frame is let through exactly when the last accepted carrier action was link-up and the last
   * accepted action on its own halt was not that halt: the other direction's halt plays no part.
   */
  lemma HaltsGateTheirOwnDirection(inputs: seq<Input>)
    ensures
      var s := Emulate(inputs).state;
      var log := Accepted(ActionsOf(inputs));
      && (PacketReady(s, Tx) == Ready
          <==> LastTouch(log, CarrierFlag) == Some(LinkUp) && LastTouch(log, TxFlag) != Some(TxHalt))
      && (PacketReady(s, Rx) == Ready
          <==> LastTouch(log, CarrierFlag) == Some(LinkUp) && LastTouch(log, RxFlag) != Some(RxHalt))
  {
    PacketsLeaveTheStateAlone(inputs);
    HistoryDeterminesState(ActionsOf(inputs));
    ReadinessOfReachableStates(Run(ActionsOf(inputs)));
  }

  // ---- The integrated C pipeline --------------------------------------------------------------

  /** `aurum_integrated_result` together with the return code. */
  datatype PipeResult = PipeResult(rc: int, nextState: nat, accepted: nat, packetRc: nat, tx: TxShadow, rx: RxShadow)

  const NO_TX := TxShadow(0, 0, 0, 0, 0, 0, 0, 0)
  const NO_RX := RxShadow(0, 0, 0, 0, 0)

  function EventCode(e: Input): nat {
    match e
    case Act(a) => Code(a)
    case Transmit(_, _) => 13
    case Receive(_, _) => 14
  }

  /** The events a driver can pass: `uint32_t` lengths to TX, and RX lengths that a status word can hold. */
  predicate Encodable(e: Input) {
    match e
    case Act(_) => true
    case Transmit(length, _) => 0 <= length < UINT32
    case Receive(length, _) => 0 <= length <= 0x3FFF
  }

  /** The three wrappers, each reached with a zeroed result structure. */
  method Integrated(t: Tables, stateCount: nat, state: nat, e: Input) returns (r: PipeResult)
    requires Shaped(t, stateCount, 15) && Encodable(e)
    ensures state >= stateCount ==> r == PipeResult(-2, 0, 0, 0, NO_TX, NO_RX)
    ensures state < stateCount ==>
              CStep(t, stateCount, 15, state, EventCode(e)) == Some(CResult(r.nextState, r.accepted))
              && r.packetRc == if r.rc == 0 then 0 else 1
    ensures state < stateCount && r.accepted == 0 ==> r.rc == 0
    ensures r.accepted != 0 && e.Act? ==> r.rc == 0
    ensures r.accepted != 0 && e.Transmit? ==>
              (r.rc == 0 <==> GoodLength(e.length))
              && (r.rc == 0 ==> SameTx(r.tx, Framed(e.length, ChecksumFor(e.checksum))))
    ensures r.accepted != 0 && e.Receive? ==>
              r.rc == 0 && SameRx(r.rx, Decoded(StatusWord(e.length, e.error), e.length))
  {
    var found := CStep(t, stateCount, 15, state, EventCode(e));
    if found.None? {
      return PipeResult(-2, 0, 0, 0, NO_TX, NO_RX);
    }
    var step := found.value;
    r := PipeResult(0, step.nextState, step.accepted, 0, NO_TX, NO_RX);
    if e.Act? || step.accepted == 0 {
      return;
    }
    if e.Transmit? {
      var rc, tx := CModelTx(
        e.length, if e.checksum then 1 else 0, if e.checksum then 14 else 0, if e.checksum then 2 else 0, NO_TX);
      r := r.(rc := rc, packetRc := if rc == 0 then 0 else 1, tx := tx);
    } else {
      StatusWordDecodes(e.length, e.error);
      var rx := CDecodeRx(StatusWord(e.length, e.error), e.length);
      r := r.(rx := rx);
    }
  }

  function EventOf(e: Input): Event {
    match e
    case Act(a) => Do(a)
    case Transmit(_, _) => TxPacket
    case Receive(_, _) => RxPacket
  }

  lemma CodeNamesEvent(e: Input)
    ensures EVENTS[EventCode(e)] == EventOf(e)
  {
    match e
    case Act(_) =>
    case Transmit(_, _) =>
    case Receive(_, _) =>
  }

  /** What the integrated differential compares after one event. */
  ghost predicate Agrees(r: PipeResult, reply: Reply, e: Input) {
    && (r.rc == 0 <==> !reply.Raised?)
    && (r.accepted != 0 <==> (reply == Moved(true) || reply.Sent? || reply.Received? || reply.Raised?))
    && (reply.Sent? ==> SameTx(r.tx, reply.framing))
    && (reply.Received? ==> SameRx(r.rx, reply.decoded))
  }

  function Codes(inputs: seq<Input>): (codes: seq<nat>)
    ensures |codes| == |inputs| && InRange(codes, 15)
  {
    seq(|inputs|, i requires 0 <= i < |inputs| => EventCode(inputs[i]))
  }

  lemma {:induction false} EmulatorIsEventRun(inputs: seq<Input>)
    ensures EventRun(INITIAL, Named(EVENTS, Codes(inputs))).place == Emulate(inputs).state
  {
    if inputs != [] {
      var n := |inputs| - 1;
      EmulatorIsEventRun(inputs[..n]);
      CodeNamesEvent(inputs[n]);
      assert Codes(inputs)[..n] == Codes(inputs[..n]);
      assert Named(EVENTS, Codes(inputs))[..n] == Named(EVENTS, Codes(inputs[..n]));
    } else {
      assert Named(EVENTS, Codes(inputs)) == [];
    }
  }

  /** The tables, fed the codes of these inputs from the initial index on, have come to `current`. */
  ghost predicate At(t: Tables, ids: seq<string>, inputs: seq<Input>, current: nat)
    requires StateKey(INITIAL) in ids && Shaped(t, |ids|, 15)
  {
    var c := CRun(t, |ids|, 15, IndexOf(ids, StateKey(INITIAL)), Codes(inputs));
    c.Some? && c.value.place == current
  }

  /**
   * One driver loop over both programs at once. Whatever the events and however many, the index the C
   * feeds back after each of them is that of the emulator's state, and each answer agrees in return code, admission
   * and every framed or decoded field.
   */
  method RunIntegrated(t: Tables, ids: seq<string>, inputs: seq<Input>)
    returns (current: nat, results: seq<PipeResult>)
    requires Tracks(t, ids, EVENTS)
    requires forall i :: 0 <= i < |inputs| ==> Encodable(inputs[i])
    ensures current < |ids| && ids[current] == StateKey(Emulate(inputs).state)
    ensures |results| == |inputs| == |Emulate(inputs).replies| && Follows(ids, inputs, results)
    ensures forall i :: 0 <= i < |inputs| ==> Agrees(results[i], Emulate(inputs).replies[i], inputs[i])
  {
    current := IndexOf(ids, StateKey(INITIAL));
    results := [];
    var n := 0;
    assert inputs[..0] == [];
    while n < |inputs|
      invariant 0 <= n <= |inputs| && |results| == n
      invariant current < |ids| && At(t, ids, inputs[..n], current) && Follows(ids, inputs, results)
    {
      var r := FollowOne(t, ids, inputs, n, current);
      results := results + [r];
      current := r.nextState;
      n := n + 1;
    }
    assert inputs[..n] == inputs;
    PlaceIsState(t, ids, inputs, current);
    EventsAreConserved(inputs);
    forall i | 0 <= i < |inputs|
      ensures Agrees(results[i], Emulate(inputs).replies[i], inputs[i])
    {
      ReplyAt(inputs, i);
    }
  }

  /** The index returned is that of the state the emulator is in after event i, and the answers agree. */
  ghost predicate FollowsAt(ids: seq<string>, inputs: seq<Input>, i: nat, r: PipeResult)
    requires i < |inputs|
  {
    && r.nextState < |ids| && ids[r.nextState] == StateKey(Emulate(inputs[..i + 1]).state)
    && Agrees(r, ReplyTo(Emulate(inputs[..i]).state, inputs[i]), inputs[i])
  }

  ghost predicate Follows(ids: seq<string>, inputs: seq<Input>, results: seq<PipeResult>) {
    |results| <= |inputs| && forall i :: 0 <= i < |results| ==> FollowsAt(ids, inputs, i, results[i])
  }

  /** One event through the C, from the index that the events before it led to. */
  method FollowOne(t: Tables, ids: seq<string>, inputs: seq<Input>, n: nat, current: nat) returns (r: PipeResult)
    requires Tracks(t, ids, EVENTS) && n < |inputs| && Encodable(inputs[n])
    requires current < |ids| && At(t, ids, inputs[..n], current)
    ensures FollowsAt(ids, inputs, n, r) && At(t, ids, inputs[..n + 1], r.nextState)
  {
    PipelineStep(t, ids, inputs, n, current);
    r := Integrated(t, |ids|, current, inputs[n]);
    AnswersAgree(r, Emulate(inputs[..n]).state, inputs[n]);
    PlaceIsState(t, ids, inputs[..n + 1], r.nextState);
  }

  lemma {:induction false} ReplyAt(inputs: seq<Input>, i: nat)
    requires i < |inputs|
    ensures |Emulate(inputs).replies| == |inputs|
    ensures Emulate(inputs).replies[i] == ReplyTo(Emulate(inputs[..i]).state, inputs[i])
  {
    var before := inputs[..|inputs| - 1];
    if i < |before| {
      ReplyAt(before, i);
      assert before[..i] == inputs[..i];
    } else {
      EventsAreConserved(before);
    }
  }

  lemma PlaceIsState(t: Tables, ids: seq<string>, inputs: seq<Input>, current: nat)
    requires Tracks(t, ids, EVENTS) && At(t, ids, inputs, current)
    ensures current < |ids| && ids[current] == StateKey(Emulate(inputs).state)
  {
    assert TracksRun(t, ids, EVENTS, Codes(inputs));
    EmulatorIsEventRun(inputs);
  }

  /** Where the tables are before and after event `n`, and what its accept bit says. */
  lemma PipelineStep(t: Tables, ids: seq<string>, inputs: seq<Input>, n: nat, current: nat)
    requires Tracks(t, ids, EVENTS) && n < |inputs| && current < |ids| && At(t, ids, inputs[..n], current)
    ensures
      var step := CStep(t, |ids|, 15, current, EventCode(inputs[n]));
      step.Some? && step.value.nextState < |ids| && At(t, ids, inputs[..n + 1], step.value.nextState)
      && (step.value.accepted != 0 <==> EventAccepted(Emulate(inputs[..n]).state, EventOf(inputs[n])))
  {
    var codes := Codes(inputs[..n + 1]);
    CodeNamesEvent(inputs[n]);
    assert inputs[..n + 1][..n] == inputs[..n];
    assert codes[..n] == Codes(inputs[..n]);
    assert TracksRun(t, ids, EVENTS, codes);
    EmulatorIsEventRun(inputs[..n]);
    assert Named(EVENTS, codes)[..n] == Named(EVENTS, Codes(inputs[..n]));
    var c := CRun(t, |ids|, 15, IndexOf(ids, StateKey(INITIAL)), codes);
    var wanted := EventRun(INITIAL, Named(EVENTS, codes));
    assert c.value.bits == wanted.bits;
    assert c.value.bits[|c.value.bits| - 1] == wanted.bits[|wanted.bits| - 1];
  }

  lemma AnswersAgree(r: PipeResult, s: State, e: Input)
    requires Encodable(e) && (r.accepted != 0 <==> EventAccepted(s, EventOf(e)))
    requires r.accepted == 0 ==> r.rc == 0
    requires r.accepted != 0 && e.Act? ==> r.rc == 0
    requires r.accepted != 0 && e.Transmit? ==>
               (r.rc == 0 <==> GoodLength(e.length))
               && (r.rc == 0 ==> SameTx(r.tx, Framed(e.length, ChecksumFor(e.checksum))))
    requires r.accepted != 0 && e.Receive? ==>
               r.rc == 0 && SameRx(r.rx, Decoded(StatusWord(e.length, e.error), e.length))
    ensures Agrees(r, ReplyTo(s, e), e)
  {
    if e.Receive? { StatusWordDecodes(e.length, e.error); }
  }
}
