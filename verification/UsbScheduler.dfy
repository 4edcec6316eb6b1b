/** The virtual USB scheduler: one transfer at a time per endpoint, generations, and retry backoff. */
module UsbScheduler {
  import opened Common
  import opened Bits

  datatype Direction = Tx | Rx

  datatype Transfer = Transfer(id: nat, direction: Direction, generation: nat, submitAt: nat, startAt: nat, finishAt: nat)

  datatype Clock = Clock(connected: bool, generation: nat, nextId: nat, busyTx: nat, busyRx: nat)

  datatype SchedulerError = ValueError | RuntimeError

  datatype Completion = StaleQuarantined | DisconnectedQuarantined | EarlyRefused | Completed

  function Busy(c: Clock, d: Direction): nat { if d == Tx then c.busyTx else c.busyRx }

  function Max(a: nat, b: nat): nat { if a < b then b else a }

  function Scheduled(c: Clock, d: Direction, now: nat, duration: nat): Transfer {
    var start := Max(now, Busy(c, d));
    Transfer(c.nextId, d, c.generation, now, start, start + duration)
  }

  function AfterSubmit(c: Clock, t: Transfer): Clock {
    var next := c.(nextId := c.nextId + 1);
    if t.direction == Tx then next.(busyTx := t.finishAt) else next.(busyRx := t.finishAt)
  }

  /** `complete` reads the scheduler and changes nothing, so it may give the same answer twice. */
  function CompletionOf(c: Clock, t: Transfer, now: nat): Completion {
    if t.generation != c.generation then StaleQuarantined
    else if !c.connected then DisconnectedQuarantined
    else if now < t.finishAt then EarlyRefused
    else Completed
  }

  function AfterDisconnect(c: Clock): Clock {
    if !c.connected then c else c.(connected := false, generation := c.generation + 1)
  }

  function AfterReconnect(c: Clock, now: nat): Clock {
    if c.connected then c else c.(connected := true, busyTx := now, busyRx := now)
  }

  class VirtualUsbScheduler {
    var connected: bool
    var generation: nat
    var nextId: nat
    var busyTx: nat
    var busyRx: nat

    function View(): Clock
      reads this
    {
      Clock(connected, generation, nextId, busyTx, busyRx)
    }

    constructor ()
      ensures View() == Clock(true, 0, 1, 0, 0)
    {
      connected, generation, nextId, busyTx, busyRx := true, 0, 1, 0, 0;
    }

    /** Directions other than tx and rx are excluded by the type. */
    method Submit(direction: Direction, now: int, duration: int) returns (r: Result<Transfer, SchedulerError>)
      modifies this
      ensures r.Ok? <==> now >= 0 && duration > 0 && old(connected)
      ensures r.Err? ==> View() == old(View()) && (r.error.RuntimeError? <==> now >= 0 && duration > 0)
      ensures r.Ok? ==> r.value == Scheduled(old(View()), direction, now, duration)
                        && View() == AfterSubmit(old(View()), r.value)
    {
      if now < 0 || duration < 0 {
        return Err(ValueError);
      }
      if duration == 0 {
        return Err(ValueError);
      }
      if !connected {
        return Err(RuntimeError);
      }
      var start := Max(now, if direction == Tx then busyTx else busyRx);
      var finish := start + duration;
      var transfer := Transfer(nextId, direction, generation, now, start, finish);
      nextId := nextId + 1;
      if direction == Tx {
        busyTx := finish;
      } else {
        busyRx := finish;
      }
      r := Ok(transfer);
    }

    method Complete(transfer: Transfer, now: int) returns (r: Result<Completion, SchedulerError>)
      ensures r == if now < 0 then Err(ValueError) else Ok(CompletionOf(View(), transfer, now))
    {
      if now < 0 {
        return Err(ValueError);
      }
      if transfer.generation != generation {
        return Ok(StaleQuarantined);
      }
      if !connected {
        return Ok(DisconnectedQuarantined);
      }
      if now < transfer.finishAt {
        return Ok(EarlyRefused);
      }
      r := Ok(Completed);
    }

    method Disconnect(now: int) returns (r: Result<nat, SchedulerError>)
      modifies this
      ensures now < 0 ==> r == Err(ValueError) && View() == old(View())
      ensures now >= 0 ==> View() == AfterDisconnect(old(View())) && r == Ok(generation)
    {
      if now < 0 {
        return Err(ValueError);
      }
      if !connected {
        return Ok(generation);
      }
      connected := false;
      generation := generation + 1;
      r := Ok(generation);
    }

    method Reconnect(now: int) returns (r: Result<nat, SchedulerError>)
      modifies this
      ensures now < 0 ==> r == Err(ValueError) && View() == old(View())
      ensures now >= 0 ==> View() == AfterReconnect(old(View()), now) && r == Ok(generation)
    {
      if now < 0 {
        return Err(ValueError);
      }
      if connected {
        return Ok(generation);
      }
      connected := true;
      busyTx, busyRx := now, now;
      r := Ok(generation);
    }
  }

  // ---- Every run ------------------------------------------------------------------------------

  datatype Op = SubmitOp(direction: Direction, now: nat, duration: nat) | DisconnectOp | ReconnectOp(now: nat)

  /** The scheduler, every transfer it ever issued, and when each generation opened. */
  datatype World = World(clock: Clock, issued: seq<Transfer>, openings: map<nat, nat>)

  const FRESH := World(Clock(true, 0, 1, 0, 0), [], map[0 := 0])

  function Step(w: World, op: Op): World {
    match op
    case SubmitOp(direction, now, duration) =>
      if duration == 0 || !w.clock.connected then w
      else
        var t := Scheduled(w.clock, direction, now, duration);
        World(AfterSubmit(w.clock, t), w.issued + [t], w.openings)
    case DisconnectOp => w.(clock := AfterDisconnect(w.clock))
    case ReconnectOp(now) =>
      w.(clock := AfterReconnect(w.clock, now),
         openings := if w.clock.connected then w.openings else w.openings[w.clock.generation := now])
  }

  function Run(ops: seq<Op>): World {
    if ops == [] then FRESH else Step(Run(ops[..|ops| - 1]), ops[|ops| - 1])
  }

  predicate SameLane(a: Transfer, b: Transfer) { a.direction == b.direction && a.generation == b.generation }

  /** A transfer starts when it is submitted, when its generation opens, or when an earlier one of its lane ends. */
  ghost predicate StartsPromptly(w: World, j: nat)
    requires j < |w.issued|
  {
    var t := w.issued[j];
    || t.startAt == t.submitAt
    || (t.generation in w.openings && t.startAt == w.openings[t.generation])
    || exists i :: 0 <= i < j && SameLane(w.issued[i], t) && w.issued[i].finishAt == t.startAt
  }

  ghost predicate Serial(issued: seq<Transfer>) {
    forall i, j :: 0 <= i < j < |issued| && SameLane(issued[i], issued[j]) ==> issued[i].finishAt <= issued[j].startAt
  }

  /** The busy mark is the finish of the lane's last transfer, or the opening of an unused lane. */
  ghost predicate BusyIsLast(w: World, d: Direction) {
    || (w.clock.generation in w.openings && Busy(w.clock, d) == w.openings[w.clock.generation]
        && forall i :: 0 <= i < |w.issued| ==> !(w.issued[i].direction == d && w.issued[i].generation == w.clock.generation))
    || exists i :: 0 <= i < |w.issued| && w.issued[i].direction == d && w.issued[i].generation == w.clock.generation
                   && w.issued[i].finishAt == Busy(w.clock, d)
  }

  ghost predicate Numbered(w: World) {
    && w.clock.nextId == |w.issued| + 1
    && (forall i :: 0 <= i < |w.issued| ==> w.issued[i].id == i + 1)
    && (forall i :: 0 <= i < |w.issued| ==> w.issued[i].submitAt <= w.issued[i].startAt < w.issued[i].finishAt)
  }

  /** No transfer and no opening belongs to a generation still to come; a disconnected one is still to come. */
  ghost predicate Dated(w: World) {
    && (forall i :: 0 <= i < |w.issued| ==>
          w.issued[i].generation <= w.clock.generation
          && (!w.clock.connected ==> w.issued[i].generation < w.clock.generation))
    && (forall g :: g in w.openings ==> g <= w.clock.generation && (!w.clock.connected ==> g < w.clock.generation))
  }

  ghost predicate BusyIsRight(w: World) {
    w.clock.connected ==>
      BusyIsLast(w, Tx) && BusyIsLast(w, Rx)
      && forall i :: 0 <= i < |w.issued| && w.issued[i].generation == w.clock.generation ==>
           w.issued[i].finishAt <= Busy(w.clock, w.issued[i].direction)
  }

  ghost predicate AllPrompt(w: World) {
    forall j :: 0 <= j < |w.issued| ==> StartsPromptly(w, j)
  }

  ghost predicate Inv(w: World) {
    Numbered(w) && Dated(w) && Serial(w.issued) && BusyIsRight(w) && AllPrompt(w)
  }

  lemma SubmitKeeps(w: World, d: Direction, now: nat, duration: nat)
    requires Inv(w) && w.clock.connected && duration > 0
    ensures Inv(Step(w, SubmitOp(d, now, duration)))
  {
    var after := Step(w, SubmitOp(d, now, duration));
    SubmitKeepsPrompt(w, after, d, now, duration);
    SubmitKeepsBusy(w, after, d, now, duration);
  }

  lemma SubmitKeepsPrompt(w: World, after: World, d: Direction, now: nat, duration: nat)
    requires AllPrompt(w) && BusyIsRight(w) && w.clock.connected && duration > 0
    requires after == Step(w, SubmitOp(d, now, duration))
    ensures AllPrompt(after)
  {
    var n := |w.issued|;
    var t := after.issued[n];
    assert forall i :: 0 <= i < n ==> after.issued[i] == w.issued[i];
    assert BusyIsLast(w, d);
    forall j | 0 <= j <= n
      ensures StartsPromptly(after, j)
    {
      if j < n {
        assert StartsPromptly(w, j);
        if i :| 0 <= i < j && SameLane(w.issued[i], w.issued[j]) && w.issued[i].finishAt == w.issued[j].startAt {
          assert SameLane(after.issued[i], after.issued[j]);
        }
      } else if t.startAt != now && !(w.clock.generation in w.openings && t.startAt == w.openings[w.clock.generation]) {
        var i :| 0 <= i < n && w.issued[i].direction == d && w.issued[i].generation == w.clock.generation
                 && w.issued[i].finishAt == Busy(w.clock, d);
        assert SameLane(after.issued[i], t);
      }
    }
  }

  lemma SubmitKeepsBusy(w: World, after: World, d: Direction, now: nat, duration: nat)
    requires BusyIsRight(w) && w.clock.connected && duration > 0 && after == Step(w, SubmitOp(d, now, duration))
    ensures BusyIsRight(after)
  {
    var n := |w.issued|;
    assert forall i :: 0 <= i < n ==> after.issued[i] == w.issued[i];
    assert after.issued[n].finishAt == Busy(after.clock, d);
    var other := if d == Tx then Rx else Tx;
    assert BusyIsLast(w, other);
    assert BusyIsLast(after, d);
    if i :| 0 <= i < n && w.issued[i].direction == other && w.issued[i].generation == w.clock.generation
            && w.issued[i].finishAt == Busy(w.clock, other) {
      assert after.issued[i].direction == other;
    }
    assert BusyIsLast(after, other);
  }

  lemma PromptnessKept(w: World, after: World)
    requires after.issued == w.issued && AllPrompt(w)
    requires forall i :: 0 <= i < |w.issued| && w.issued[i].generation in w.openings ==>
               w.issued[i].generation in after.openings
               && after.openings[w.issued[i].generation] == w.openings[w.issued[i].generation]
    ensures AllPrompt(after)
  {
    forall j | 0 <= j < |w.issued|
      ensures StartsPromptly(after, j)
    {
      assert StartsPromptly(w, j);
    }
  }

  lemma StepKeeps(w: World, op: Op)
    requires Inv(w)
    ensures Inv(Step(w, op))
  {
    var after := Step(w, op);
    match op
    case SubmitOp(direction, now, duration) =>
      if w.clock.connected && duration > 0 { SubmitKeeps(w, direction, now, duration); }
    case DisconnectOp => PromptnessKept(w, after);
    case ReconnectOp(now) => PromptnessKept(w, after);
  }

  lemma {:induction false} RunKeeps(ops: seq<Op>)
    ensures Inv(Run(ops))
  {
    if ops != [] {
      RunKeeps(ops[..|ops| - 1]);
      StepKeeps(Run(ops[..|ops| - 1]), ops[|ops| - 1]);
    } else {
      assert BusyIsLast(FRESH, Tx) && BusyIsLast(FRESH, Rx);
    }
  }

  /**
   * In every run and every generation, not only the current one: ids count up from 1, the transfers of one
   * endpoint occupy disjoint intervals in id order, and a late start falls on an opening or on the end of an earlier one.
   */
  lemma EndpointsAreSerialised(ops: seq<Op>, i: nat, j: nat)
    requires i < j < |Run(ops).issued|
    ensures
      var issued := Run(ops).issued;
      && issued[i].id == i + 1 && issued[j].id == j + 1
      && (SameLane(issued[i], issued[j]) ==> issued[i].startAt < issued[i].finishAt <= issued[j].startAt < issued[j].finishAt)
      && issued[j].submitAt <= issued[j].startAt && StartsPromptly(Run(ops), j)
  {
    RunKeeps(ops);
  }

  // ---- Waiting only while the endpoint is busy --------------------------------------------------

  ghost predicate Occupied(issued: seq<Transfer>, d: Direction, generation: nat, moment: nat) {
    exists i :: 0 <= i < |issued| && issued[i].direction == d && issued[i].generation == generation
                && issued[i].startAt <= moment < issued[i].finishAt
  }

  /** At every moment between its submission and its start, an earlier transfer of the same lane holds the endpoint. */
  ghost predicate WaitsOnlyWhileBusy(issued: seq<Transfer>, t: Transfer) {
    forall moment :: t.submitAt <= moment < t.startAt ==> Occupied(issued, t.direction, t.generation, moment)
  }

  ghost predicate NoIdleWait(issued: seq<Transfer>) {
    forall j :: 0 <= j < |issued| ==> WaitsOnlyWhileBusy(issued[..j], issued[j])
  }

  predicate Accepted(ops: seq<Op>, op: Op) { op.SubmitOp? && op.duration > 0 && Run(ops).clock.connected }

  /** When the latest stretch without a gap began on an endpoint: at time 0, at a reconnection, or at a late submission. */
  function SinceOf(ops: seq<Op>, d: Direction): nat {
    if ops == [] then 0
    else
      var before, op := ops[..|ops| - 1], ops[|ops| - 1];
      if Accepted(before, op) && op.direction == d && Busy(Run(before).clock, d) < op.now then op.now
      else if op.ReconnectOp? && !Run(before).clock.connected then op.now
      else SinceOf(before, d)
  }

  /** The endpoint is busy without a gap from `since` to its busy mark, and was free just before `since`. */
  ghost predicate Stretch(w: World, d: Direction, since: nat) {
    && since <= Busy(w.clock, d)
    && (forall moment :: since <= moment < Busy(w.clock, d) ==> Occupied(w.issued, d, w.clock.generation, moment))
    && (forall i :: 0 <= i < |w.issued| && w.issued[i].direction == d && w.issued[i].generation == w.clock.generation ==>
          w.issued[i].finishAt < since || since <= w.issued[i].startAt)
  }

  lemma OccupiedKept(issued: seq<Transfer>, t: Transfer, d: Direction, generation: nat, moment: nat)
    ensures Occupied(issued + [t], d, generation, moment)
            <==> Occupied(issued, d, generation, moment)
                 || (t.direction == d && t.generation == generation && t.startAt <= moment < t.finishAt)
  {
    var more := issued + [t];
    assert more[|issued|] == t;
    assert forall i :: 0 <= i < |issued| ==> more[i] == issued[i];
  }

  lemma SubmitKeepsStretch(w: World, d: Direction, since: nat, lane: Direction, now: nat, duration: nat)
    requires BusyIsRight(w) && w.clock.connected && duration > 0 && Stretch(w, d, since)
    ensures Stretch(Step(w, SubmitOp(lane, now, duration)), d,
                    if lane == d && Busy(w.clock, d) < now then now else since)
  {
    var after := Step(w, SubmitOp(lane, now, duration));
    var t := Scheduled(w.clock, lane, now, duration);
    var from := if lane == d && Busy(w.clock, d) < now then now else since;
    forall moment | from <= moment < Busy(after.clock, d)
      ensures Occupied(after.issued, d, after.clock.generation, moment)
    {
      OccupiedKept(w.issued, t, d, w.clock.generation, moment);
    }
  }

  lemma {:induction false} StretchKept(ops: seq<Op>, d: Direction)
    requires Run(ops).clock.connected
    ensures Stretch(Run(ops), d, SinceOf(ops, d))
  {
    if ops != [] {
      var before, op := ops[..|ops| - 1], ops[|ops| - 1];
      RunKeeps(before);
      if Run(before).clock.connected {
        StretchKept(before, d);
        if Accepted(before, op) { SubmitKeepsStretch(Run(before), d, SinceOf(before, d), op.direction, op.now, op.duration); }
      }
    }
  }

  /**
   * The exact condition, in every run: a submission waits only while its endpoint is busy exactly when its time is
   * not before the beginning of the endpoint's latest stretch. An earlier time would wait through a gap.
   */
  lemma WaitsOnlyWhileBusyIff(ops: seq<Op>, d: Direction, now: nat, duration: nat)
    requires Accepted(ops, SubmitOp(d, now, duration))
    ensures WaitsOnlyWhileBusy(Run(ops).issued, Scheduled(Run(ops).clock, d, now, duration)) <==> SinceOf(ops, d) <= now
  {
    StretchKept(ops, d);
    var since := SinceOf(ops, d);
    if now < since {
      assert !Occupied(Run(ops).issued, d, Run(ops).clock.generation, since - 1);
    }
  }

  /** No accepted submission is dated before the stretch it joins. */
  ghost predicate InOrder(ops: seq<Op>) {
    ops != [] ==>
      var before, op := ops[..|ops| - 1], ops[|ops| - 1];
      InOrder(before) && (Accepted(before, op) ==> SinceOf(before, op.direction) <= op.now)
  }

  /** Over a whole run: no transfer ever waits while its endpoint is free, exactly when no submission is dated too early. */
  lemma {:induction false} NoIdleWaitIff(ops: seq<Op>)
    ensures NoIdleWait(Run(ops).issued) <==> InOrder(ops)
  {
    if ops != [] {
      var before, op := ops[..|ops| - 1], ops[|ops| - 1];
      NoIdleWaitIff(before);
      if Accepted(before, op) {
        var t := Scheduled(Run(before).clock, op.direction, op.now, op.duration);
        WaitsOnlyWhileBusyIff(before, op.direction, op.now, op.duration);
        NoIdleWaitStep(Run(before).issued, t);
      }
    }
  }

  lemma NoIdleWaitStep(issued: seq<Transfer>, t: Transfer)
    ensures NoIdleWait(issued + [t]) <==> NoIdleWait(issued) && WaitsOnlyWhileBusy(issued, t)
  {
    var n, more := |issued|, issued + [t];
    assert more[..n] == issued && more[n] == t;
    forall j | 0 <= j < n
      ensures more[..j] == issued[..j] && more[j] == issued[j]
    {
    }
    if NoIdleWait(issued) && WaitsOnlyWhileBusy(issued, t) {
      forall j | 0 <= j < |more|
        ensures WaitsOnlyWhileBusy(more[..j], more[j])
      {
        if j < n { assert WaitsOnlyWhileBusy(issued[..j], issued[j]); }
      }
    }
    if NoIdleWait(more) {
      assert WaitsOnlyWhileBusy(more[..n], more[n]);
      forall j | 0 <= j < n
        ensures WaitsOnlyWhileBusy(issued[..j], issued[j])
      {
        assert WaitsOnlyWhileBusy(more[..j], more[j]);
      }
    }
  }

  /** The latest time handed to the scheduler. */
  function LastReading(ops: seq<Op>): nat {
    if ops == [] then 0
    else if ops[|ops| - 1].DisconnectOp? then LastReading(ops[..|ops| - 1])
    else ops[|ops| - 1].now
  }

  ghost predicate Monotone(ops: seq<Op>) {
    ops != [] ==>
      var before, op := ops[..|ops| - 1], ops[|ops| - 1];
      Monotone(before) && (op.DisconnectOp? || LastReading(before) <= op.now)
  }

  lemma {:induction false} MonotoneIsInOrder(ops: seq<Op>)
    requires Monotone(ops)
    ensures InOrder(ops) && forall d :: SinceOf(ops, d) <= LastReading(ops)
  {
    if ops != [] { MonotoneIsInOrder(ops[..|ops| - 1]); }
  }

  /** Under a clock that never runs backwards, no transfer waits at a moment when its endpoint is free. */
  lemma NoneWaitsWhileFree(ops: seq<Op>, j: nat, moment: nat)
    requires Monotone(ops) && j < |Run(ops).issued|
    requires Run(ops).issued[j].submitAt <= moment < Run(ops).issued[j].startAt
    ensures exists i :: 0 <= i < j && SameLane(Run(ops).issued[i], Run(ops).issued[j])
                        && Run(ops).issued[i].startAt <= moment < Run(ops).issued[i].finishAt
  {
    var issued := Run(ops).issued;
    MonotoneIsInOrder(ops);
    NoIdleWaitIff(ops);
    assert WaitsOnlyWhileBusy(issued[..j], issued[j]);
    assert Occupied(issued[..j], issued[j].direction, issued[j].generation, moment);
    var i :| 0 <= i < j && issued[..j][i].direction == issued[j].direction && issued[..j][i].generation == issued[j].generation
             && issued[..j][i].startAt <= moment < issued[..j][i].finishAt;
    assert SameLane(issued[i], issued[j]);
  }

  /** Times handed in out of order: the third transfer, dated 7, waits until 15 though its endpoint was free from 5 to 10. */
  lemma EarlyDateWaitsThroughGap(first: Op, second: Op, third: Op)
    requires first == SubmitOp(Tx, 0, 5) && second == SubmitOp(Tx, 10, 5) && third == SubmitOp(Tx, 7, 1)
    ensures
      var issued := Run([first, second, third]).issued;
      && |issued| == 3 && issued[2].submitAt == 7 && issued[2].startAt == 15
      && !Occupied(issued, Tx, 0, 7) && !NoIdleWait(issued) && !InOrder([first, second, third])
  {
    var ops := [first, second, third];
    assert ops[..2] == [first, second] && [first, second][..1] == [first] && [first][..0] == [];
    assert Run([first]) == Step(FRESH, first);
    assert Run([first, second]) == Step(Run([first]), second);
    assert Run(ops) == Step(Run([first, second]), third);
    assert SinceOf([first, second], Tx) == 10;
    assert !InOrder(ops);
    NoIdleWaitIff(ops);
  }

  lemma {:induction false} GenerationsAdvance(ops: seq<Op>, more: seq<Op>)
    ensures Run(ops).clock.generation <= Run(ops + more).clock.generation
    ensures Run(ops).issued <= Run(ops + more).issued
  {
    if more == [] {
      assert ops + more == ops;
    } else {
      GenerationsAdvance(ops, more[..|more| - 1]);
      assert (ops + more)[..|ops + more| - 1] == ops + more[..|more| - 1];
    }
  }

  /** Once stale, a transfer is answered as stale at every later moment of the run. */
  lemma StaleForever(ops: seq<Op>, more: seq<Op>, i: nat, now: nat, later: nat)
    requires i < |Run(ops).issued| && CompletionOf(Run(ops).clock, Run(ops).issued[i], now) == StaleQuarantined
    ensures i < |Run(ops + more).issued| && Run(ops + more).issued[i] == Run(ops).issued[i]
    ensures CompletionOf(Run(ops + more).clock, Run(ops + more).issued[i], later) == StaleQuarantined
  {
    RunKeeps(ops);
    GenerationsAdvance(ops, more);
  }

  /** For a transfer the scheduler issued, the disconnected answer never comes: by then it is already stale. */
  lemma DisconnectedAnswerUnreachable(ops: seq<Op>, i: nat, now: nat)
    requires i < |Run(ops).issued|
    ensures CompletionOf(Run(ops).clock, Run(ops).issued[i], now) != DisconnectedQuarantined
    ensures CompletionOf(Run(ops).clock, Run(ops).issued[i], now) == Completed
            <==> Run(ops).issued[i].generation == Run(ops).clock.generation && Run(ops).issued[i].finishAt <= now
  {
    RunKeeps(ops);
  }

  // ---- Retry backoff --------------------------------------------------------------------------

  /** `retry_due_ms`. */
  function RetryDue(attempt: int, base: int, cap: int): Result<nat, SchedulerError> {
    if attempt < 1 || base < 1 || cap < base then Err(ValueError)
    else
      var due := base * Pow2(attempt - 1);
      Ok(if cap < due then cap else due)
  }

  lemma {:induction false} BackoffBounded(attempt: nat, base: nat, cap: nat)
    requires 1 <= attempt && 1 <= base <= cap
    ensures base <= RetryDue(attempt, base, cap).value <= cap
  {
    if attempt > 1 { BackoffBounded(attempt - 1, base, cap); }
    assert base * Pow2(attempt - 1) >= base;
  }

  /** Each delay is twice the one before it until the cap is reached, and stays at the cap from then on. */
  lemma BackoffDoubles(attempt: nat, base: nat, cap: nat)
    requires 1 <= attempt && 1 <= base <= cap
    ensures
      var now, next := RetryDue(attempt, base, cap).value, RetryDue(attempt + 1, base, cap).value;
      next == (if 2 * now < cap then 2 * now else cap) && now <= next
  {
    assert Pow2(attempt) == 2 * Pow2(attempt - 1);
    assert base * Pow2(attempt) == 2 * (base * Pow2(attempt - 1));
  }

  lemma {:induction false} BackoffMonotone(first: nat, second: nat, base: nat, cap: nat)
    requires 1 <= first <= second && 1 <= base <= cap
    ensures RetryDue(first, base, cap).value <= RetryDue(second, base, cap).value
    decreases second
  {
    if first < second {
      BackoffMonotone(first, second - 1, base, cap);
      BackoffDoubles(second - 1, base, cap);
    }
  }
}
