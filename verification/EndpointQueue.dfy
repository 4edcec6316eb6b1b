/** The bounded virtual USB endpoint queue, and the single FIFO line it stands for. */
module EndpointQueues {
  import opened Common

  datatype Item = Item(transferId: nat, generation: nat, cancelRequested: bool)

  datatype Submission = RejectedDisconnected | Backpressure | Active(id: nat) | Queued(id: nat)

  datatype Cancellation = InvalidId | ActiveCancelIntent | QueuedCancelled | NotFound

  datatype Completion = Idle | StaleQuarantined | CancelledQuarantined | Completed

  // ---- The line: one sequence, and where every accepted transfer went ---------------------------

  /**
   * `line` is the active transfer followed by the waiting ones. `flags` are the transfers whose
   * cancellation was asked for while they were active. The three ledgers say how transfers left.
   */
  datatype Line = Line(
    line: seq<nat>, connected: bool, generation: nat, nextId: nat, flags: set<nat>,
    completed: seq<nat>, withdrawn: seq<nat>, quarantined: seq<nat>, served: seq<nat>)

  const FRESH := Line([], true, 0, 1, {}, [], [], [], [])

  datatype Op = SubmitOp | CancelOp(id: int) | CompleteOp | DisconnectOp | ReconnectOp

  datatype Reply =
    | Submitted(submission: Submission)
    | Cancelled(cancellation: Cancellation)
    | Finished(completion: Completion)
    | Disconnected(invalidated: nat)
    | Reconnected

  function PositionOf(id: int, line: seq<nat>): (r: Option<nat>)
    ensures r.Some? ==> r.value < |line| && line[r.value] == id && id !in line[..r.value]
    ensures r.None? ==> id !in line
  {
    if line == [] then None
    else if line[0] == id then Some(0)
    else
      match PositionOf(id, line[1..])
      case None => None
      case Some(i) => Some(i + 1)
  }

  /** One call on the line. Note that no completion is ever stale here. */
  function Next(depth: nat, q: Line, op: Op): (Line, Reply) {
    match op
    case SubmitOp =>
      if !q.connected then (q, Submitted(RejectedDisconnected))
      else if |q.line| >= depth then (q, Submitted(Backpressure))
      else (q.(line := q.line + [q.nextId], nextId := q.nextId + 1),
            Submitted(if q.line == [] then Active(q.nextId) else Queued(q.nextId)))
    case CancelOp(id) =>
      if id < 1 then (q, Cancelled(InvalidId))
      else
        (match PositionOf(id, q.line)
         case None => (q, Cancelled(NotFound))
         case Some(0) => (q.(flags := q.flags + {q.line[0]}), Cancelled(ActiveCancelIntent))
         case Some(i) => (q.(line := Removed(q.line, i), withdrawn := q.withdrawn + [q.line[i]]),
                          Cancelled(QueuedCancelled)))
    case CompleteOp =>
      if q.line == [] then (q, Finished(Idle))
      else
        var id := q.line[0];
        var rest := q.(line := q.line[1..], served := q.served + [id]);
        if id in q.flags then (rest.(quarantined := q.quarantined + [id]), Finished(CancelledQuarantined))
        else (rest.(completed := q.completed + [id]), Finished(Completed))
    case DisconnectOp =>
      if !q.connected then (q, Disconnected(0))
      else (q.(line := [], connected := false, generation := q.generation + 1,
               quarantined := q.quarantined + q.line, served := q.served + q.line),
            Disconnected(|q.line|))
    case ReconnectOp => (q.(connected := true), Reconnected)
  }

  class EndpointQueue {
    const direction: string
    const maxDepth: nat
    var generation: nat
    var connected: bool
    var nextId: nat
    var active: Option<Item>
    var waiting: seq<Item>
    var cancelIntents: nat
    var quarantined: nat
    /** The line this queue stands for. */
    ghost var history: Line

    function Items(): seq<Item>
      reads this
    {
      (if active.Some? then [active.value] else []) + waiting
    }

    function Depth(): nat
      reads this
    {
      |waiting| + if active.Some? then 1 else 0
    }

    ghost predicate Valid()
      reads this
    {
      && Stands(Items(), history)
      && history.connected == connected && history.generation == generation && history.nextId == nextId
      && quarantined == |history.quarantined| && cancelIntents == |history.flags|
      && (active.None? ==> waiting == [])
      && (!connected ==> active.None?)
      && |Items()| <= maxDepth
    }

    constructor Init(direction: string, maxDepth: nat)
      ensures Valid() && history == FRESH
      ensures this.direction == direction && this.maxDepth == maxDepth
    {
      this.direction, this.maxDepth := direction, maxDepth;
      generation, connected, nextId := 0, true, 1;
      active, waiting := None, [];
      cancelIntents, quarantined := 0, 0;
      history := FRESH;
    }

    /** The argument checks of `__init__`; `null` stands for the exception. */
    static method Create(direction: string, maxDepth: int) returns (q: EndpointQueue?)
      ensures q == null <==> !(direction in {"tx", "rx"} && 1 <= maxDepth <= 1024)
      ensures q != null ==> fresh(q) && q.Valid() && q.history == FRESH && q.maxDepth == maxDepth
    {
      if direction !in {"tx", "rx"} || maxDepth < 1 || maxDepth > 1024 {
        return null;
      }
      q := new EndpointQueue.Init(direction, maxDepth);
    }

    method Submit() returns (r: Submission)
      requires Valid()
      modifies this
      ensures Valid() && (history, Submitted(r)) == Next(maxDepth, old(history), SubmitOp)
    {
      if !connected {
        return RejectedDisconnected;
      }
      if Depth() >= maxDepth {
        return Backpressure;
      }
      var item := Item(nextId, generation, false);
      StandsAfterAppend(Items(), history, item);
      history := Next(maxDepth, history, SubmitOp).0;
      ghost var before := Items();
      nextId := nextId + 1;
      if active.None? {
        active := Some(item);
        r := Active(item.transferId);
      } else {
        waiting := waiting + [item];
        r := Queued(item.transferId);
      }
      assert Items() == before + [item];
    }

    method Cancel(transferId: int) returns (r: Cancellation)
      requires Valid()
      modifies this
      ensures Valid() && (history, Cancelled(r)) == Next(maxDepth, old(history), CancelOp(transferId))
    {
      if transferId < 1 {
        return InvalidId;
      }
      ghost var before := Items();
      if active.Some? && active.value.transferId == transferId {
        assert before[0] == active.value;
        PositionUnique(transferId, history.line);
        StandsAfterFlag(before, history);
        history := history.(flags := history.flags + {history.line[0]});
        if !active.value.cancelRequested {
          active := Some(active.value.(cancelRequested := true));
          cancelIntents := cancelIntents + 1;
        }
        assert Items() == before[0 := before[0].(cancelRequested := true)];
        return ActiveCancelIntent;
      }
      r := CancelWaiting(transferId);
    }

    /** The loop of `cancel` over the waiting list. */
    method CancelWaiting(transferId: int) returns (r: Cancellation)
      requires Valid() && transferId >= 1
      requires active.Some? ==> active.value.transferId != transferId
      modifies this
      ensures Valid() && (history, Cancelled(r)) == Next(maxDepth, old(history), CancelOp(transferId))
    {
      ghost var before := Items();
      ghost var head: nat := if active.Some? then 1 else 0;
      var index := 0;
      while index < |waiting|
        invariant 0 <= index <= |waiting|
        invariant forall i :: 0 <= i < index ==> waiting[i].transferId != transferId
      {
        if waiting[index].transferId == transferId {
          assert before[head + index] == waiting[index];
          CancelFinds(maxDepth, history, transferId, head + index);
          StandsAfterRemoval(before, history, head + index);
          history := Next(maxDepth, history, CancelOp(transferId)).0;
          waiting := waiting[..index] + waiting[index + 1..];
          CutBehind(if active.Some? then [active.value] else [], old(waiting), index);
          assert Items() == before[..head + index] + before[head + index + 1..];
          return QueuedCancelled;
        }
        index := index + 1;
      }
      AbsentId(before, transferId);
      r := NotFound;
    }

    /** A completion whose generation has passed, or on a disconnected queue, cannot happen. */
    method CompleteActive() returns (r: Completion)
      requires Valid()
      modifies this
      ensures Valid() && (history, Finished(r)) == Next(maxDepth, old(history), CompleteOp)
    {
      if active.None? {
        return Idle;
      }
      var item := active.value;
      ghost var before := Items();
      assert before[0] == item;
      CompletionAdvances(maxDepth, before, history);
      history := Next(maxDepth, history, CompleteOp).0;
      r := StaleQuarantined;
      if item.generation != generation || !connected {
        assert false;
      } else if item.cancelRequested {
        r := CancelledQuarantined;
        quarantined := quarantined + 1;
      } else {
        r := Completed;
      }
      if waiting != [] {
        active, waiting := Some(waiting[0]), waiting[1..];
      } else {
        active := None;
      }
      assert Items() == before[1..];
    }

    method Disconnect() returns (invalidated: nat)
      requires Valid()
      modifies this
      ensures Valid() && (history, Disconnected(invalidated)) == Next(maxDepth, old(history), DisconnectOp)
    {
      if !connected {
        return 0;
      }
      history := Next(maxDepth, history, DisconnectOp).0;
      connected := false;
      generation := generation + 1;
      invalidated := Depth();
      quarantined := quarantined + invalidated;
      active := None;
      waiting := [];
    }

    method Reconnect()
      requires Valid()
      modifies this
      ensures Valid() && (history, Reconnected) == Next(maxDepth, old(history), ReconnectOp)
    {
      history := history.(connected := true);
      connected := true;
    }

    /** `assert_invariants` finds nothing exactly on the queues whose depth, ids and generations are sound. */
    method AssertInvariants() returns (violations: nat)
      ensures violations == 0 <==> Sound(Items(), maxDepth, generation)
    {
      violations := if Depth() > maxDepth then 1 else 0;
      var ids := Ids(Items());
      DistinctCount(ids);
      if |SetOf(ids)| != |ids| {
        violations := violations + 1;
      }
      if active.Some? && active.value.generation != generation {
        violations := violations + 1;
      }
      ghost var early := violations;
      ghost var front := if active.Some? then [active.value] else [];
      assert active.Some? ==> front[0] == active.value;
      assert early == 0 <==> |Items()| <= maxDepth && Distinct(ids) && OfGeneration(front, generation);
      var i := 0;
      while i < |waiting|
        invariant 0 <= i <= |waiting|
        invariant violations == 0 <==> early == 0 && OfGeneration(waiting[..i], generation)
      {
        assert waiting[..i + 1] == waiting[..i] + [waiting[i]];
        if waiting[i].generation != generation {
          violations := violations + 1;
        }
        i := i + 1;
      }
      assert waiting[..i] == waiting;
      GenerationOfBoth(front, waiting, generation);
    }

    /** So a queue that has only been used through its methods never shows a violation. */
    lemma ValidIsSound()
      requires Valid()
      ensures Sound(Items(), maxDepth, generation)
    {}
  }

  // ---- The line and the items that stand for it -------------------------------------------------

  lemma CutBehind(front: seq<Item>, waiting: seq<Item>, i: nat)
    requires i < |waiting|
    ensures
      var n := |front| + i;
      (front + waiting)[..n] + (front + waiting)[n + 1..] == front + (waiting[..i] + waiting[i + 1..])
  {}

  ghost predicate OfGeneration(items: seq<Item>, generation: nat) {
    forall i :: 0 <= i < |items| ==> items[i].generation == generation
  }

  lemma GenerationOfBoth(a: seq<Item>, b: seq<Item>, generation: nat)
    ensures OfGeneration(a + b, generation) <==> OfGeneration(a, generation) && OfGeneration(b, generation)
  {
    assert forall i :: 0 <= i < |a| ==> (a + b)[i] == a[i];
    assert forall i :: 0 <= i < |b| ==> (a + b)[|a| + i] == b[i];
  }

  ghost predicate Sound(items: seq<Item>, maxDepth: nat, generation: nat) {
    |items| <= maxDepth && Distinct(Ids(items)) && OfGeneration(items, generation)
  }

  ghost predicate Stands(items: seq<Item>, q: Line) {
    && Ids(items) == q.line && q.nextId >= 1
    && Distinct(q.line) && (forall i :: 0 <= i < |q.line| ==> 1 <= q.line[i] < q.nextId)
    && OfGeneration(items, q.generation)
    && (forall i :: 0 <= i < |items| ==> (items[i].cancelRequested <==> items[i].transferId in q.flags))
    && (forall i :: 1 <= i < |items| ==> !items[i].cancelRequested)
    && (forall id :: id in q.flags ==> id < q.nextId)
  }

  lemma StandsAfterAppend(items: seq<Item>, q: Line, item: Item)
    requires Stands(items, q) && item == Item(q.nextId, q.generation, false)
    ensures Stands(items + [item], q.(line := q.line + [q.nextId], nextId := q.nextId + 1))
  {}

  lemma StandsAfterFlag(items: seq<Item>, q: Line)
    requires Stands(items, q) && items != []
    ensures Stands(items[0 := items[0].(cancelRequested := true)], q.(flags := q.flags + {q.line[0]}))
    ensures |q.flags + {q.line[0]}| == |q.flags| + if items[0].cancelRequested then 0 else 1
  {
    assert items[0].transferId == q.line[0];
    if items[0].cancelRequested { assert q.flags + {q.line[0]} == q.flags; }
  }

  lemma StandsAfterRemoval(items: seq<Item>, q: Line, i: nat)
    requires Stands(items, q) && 0 < i < |items|
    ensures Stands(items[..i] + items[i + 1..], q.(line := Removed(q.line, i)))
  {
    var rest := items[..i] + items[i + 1..];
    assert Ids(rest) == Removed(q.line, i);
  }

  /** A completion takes the head away and answers by its cancel flag. */
  lemma CompletionAdvances(depth: nat, items: seq<Item>, q: Line)
    requires Stands(items, q) && items != []
    ensures
      var (after, reply) := Next(depth, q, CompleteOp);
      && Stands(items[1..], after) && items[0].generation == q.generation
      && after.connected == q.connected && after.generation == q.generation && after.nextId == q.nextId
      && after.flags == q.flags
      && |after.quarantined| == |q.quarantined| + (if items[0].cancelRequested then 1 else 0)
      && reply == Finished(if items[0].cancelRequested then CancelledQuarantined else Completed)
  {
    assert items[0].transferId == q.line[0];
    assert Ids(items[1..]) == q.line[1..];
  }

  /** Cancelling a transfer that waits at place `i`. */
  lemma CancelFinds(depth: nat, q: Line, id: nat, i: nat)
    requires Distinct(q.line) && 0 < i < |q.line| && q.line[i] == id >= 1
    ensures Next(depth, q, CancelOp(id))
            == (q.(line := Removed(q.line, i), withdrawn := q.withdrawn + [id]), Cancelled(QueuedCancelled))
  {
    PositionUnique(id, q.line);
  }

  lemma AbsentId(items: seq<Item>, id: int)
    requires forall i :: 0 <= i < |items| ==> items[i].transferId != id
    ensures PositionOf(id, Ids(items)) == None
  {
    assert id !in Ids(items);
  }

  function Ids(items: seq<Item>): (ids: seq<nat>)
    ensures |ids| == |items| && forall i :: 0 <= i < |ids| ==> ids[i] == items[i].transferId
  {
    seq(|items|, i requires 0 <= i < |items| => items[i].transferId)
  }

  function Removed(line: seq<nat>, i: nat): seq<nat>
    requires i < |line|
  {
    line[..i] + line[i + 1..]
  }

  lemma PositionUnique(id: int, line: seq<nat>)
    requires Distinct(line)
    ensures forall i :: 0 <= i < |line| && line[i] == id ==> PositionOf(id, line) == Some(i)
  {
    forall i | 0 <= i < |line| && line[i] == id
      ensures PositionOf(id, line) == Some(i)
    {
      var p := PositionOf(id, line);
      assert id in line;
      assert p.Some? && line[p.value] == line[i];
    }
  }

  // ---- Every run ------------------------------------------------------------------------------

  datatype Outcome = Outcome(line: Line, replies: seq<Reply>)

  function Run(depth: nat, ops: seq<Op>): Outcome {
    if ops == [] then Outcome(FRESH, [])
    else
      var before := Run(depth, ops[..|ops| - 1]);
      var (line, reply) := Next(depth, before.line, ops[|ops| - 1]);
      Outcome(line, before.replies + [reply])
  }

  ghost predicate Increasing(s: seq<nat>) {
    forall i, j :: 0 <= i < j < |s| ==> s[i] < s[j]
  }

  /** The ids `1 .. n`. */
  function Issued(n: nat): (s: seq<nat>)
    ensures |s| == n && forall i :: 0 <= i < n ==> s[i] == i + 1
  {
    seq(n, i => i + 1)
  }

  /** Each accepted transfer is in exactly one place: completed, withdrawn, quarantined or still in line. */
  ghost predicate Conserved(q: Line) {
    q.nextId >= 1
    && multiset(Issued(q.nextId - 1))
       == multiset(q.completed) + multiset(q.withdrawn) + multiset(q.quarantined) + multiset(q.line)
  }

  ghost predicate Ordered(all: seq<nat>, nextId: nat) {
    Increasing(all) && forall i :: 0 <= i < |all| ==> 1 <= all[i] < nextId
  }

  ghost predicate Ledgers(q: Line) {
    Conserved(q) && multiset(q.served) == multiset(q.completed) + multiset(q.quarantined)
  }

  ghost predicate Inv(depth: nat, q: Line) {
    && |q.line| <= depth
    && (!q.connected ==> q.line == [])
    && Ordered(q.served + q.line, q.nextId)
    && Ledgers(q)
    && (forall id :: id in q.flags ==> id !in q.completed)
    && (forall id :: id in q.flags ==> id in q.served || (q.line != [] && id == q.line[0]))
  }

  lemma IssuedGrows(n: nat, next: nat)
    requires next == n + 1
    ensures multiset(Issued(next)) == multiset(Issued(n)) + multiset{next}
  {
    assert Issued(next) == Issued(n) + [next];
  }

  lemma SubmitKeeps(depth: nat, q: Line)
    requires Inv(depth, q)
    ensures Inv(depth, Next(depth, q, SubmitOp).0)
  {
    if q.connected && |q.line| < depth {
      IssuedGrows(q.nextId - 1, q.nextId);
      assert q.served + (q.line + [q.nextId]) == (q.served + q.line) + [q.nextId];
    }
  }

  lemma RemovedMultiset(line: seq<nat>, i: nat)
    requires i < |line|
    ensures multiset(line) == multiset(Removed(line, i)) + multiset{line[i]}
  {
    assert line == line[..i] + [line[i]] + line[i + 1..];
  }

  lemma FlagKeeps(depth: nat, q: Line)
    requires Inv(depth, q) && q.line != []
    ensures Inv(depth, q.(flags := q.flags + {q.line[0]}))
  {
    HeadNotYetCompleted(depth, q);
  }

  lemma {:induction false} RemovalKeepsOrder(s: seq<nat>, n: nat)
    requires Increasing(s) && n < |s|
    ensures Increasing(s[..n] + s[n + 1..])
  {
    var r := s[..n] + s[n + 1..];
    forall i, j | 0 <= i < j < |r|
      ensures r[i] < r[j]
    {
      assert r[i] == s[if i < n then i else i + 1] && r[j] == s[if j < n then j else j + 1];
    }
  }

  lemma RemovalKeeps(depth: nat, q: Line, i: nat)
    requires Inv(depth, q) && 0 < i < |q.line|
    ensures Inv(depth, q.(line := Removed(q.line, i), withdrawn := q.withdrawn + [q.line[i]]))
  {
    var after := q.(line := Removed(q.line, i), withdrawn := q.withdrawn + [q.line[i]]);
    RemovedMultiset(q.line, i);
    var all := q.served + q.line;
    var n := |q.served| + i;
    assert after.served + after.line == all[..n] + all[n + 1..];
    RemovalKeepsOrder(all, n);
    assert after.line[0] == q.line[0];
  }

  lemma CancelKeeps(depth: nat, q: Line, id: int)
    requires Inv(depth, q)
    ensures Inv(depth, Next(depth, q, CancelOp(id)).0)
  {
    if id >= 1 {
      match PositionOf(id, q.line)
      case None =>
      case Some(i) => if i == 0 { FlagKeeps(depth, q); } else { RemovalKeeps(depth, q, i); }
    }
  }

  /** What is still in line has not left it. */
  lemma HeadNotYetCompleted(depth: nat, q: Line)
    requires Inv(depth, q) && q.line != []
    ensures q.line[0] !in q.completed && q.line[0] !in q.served
  {
    var all := q.served + q.line;
    assert all[|q.served|] == q.line[0];
    forall i | 0 <= i < |q.served|
      ensures q.served[i] != q.line[0]
    {
      assert all[i] == q.served[i];
    }
    assert q.line[0] !in multiset(q.served);
    assert q.line[0] !in multiset(q.completed);
  }

  lemma CompleteKeepsLedgers(depth: nat, q: Line)
    requires Ledgers(q) && q.line != []
    ensures Ledgers(Next(depth, q, CompleteOp).0)
  {
    var id := q.line[0];
    ConsCounts(q.line);
    MoveOne(multiset(q.completed), multiset(q.withdrawn), multiset(q.quarantined), multiset(q.line[1..]), multiset{id});
    SnocCounts(q.served, id);
    if id in q.flags { SnocCounts(q.quarantined, id); } else { SnocCounts(q.completed, id); }
  }

  lemma SnocCounts(s: seq<nat>, x: nat)
    ensures multiset(s + [x]) == multiset(s) + multiset{x}
  {}

  lemma ConsCounts(s: seq<nat>)
    requires s != []
    ensures multiset(s) == multiset{s[0]} + multiset(s[1..])
  {
    assert s == [s[0]] + s[1..];
  }

  /** One transfer leaves the line for a ledger: the total is what it was. */
  lemma MoveOne(c: multiset<nat>, w: multiset<nat>, q: multiset<nat>, rest: multiset<nat>, one: multiset<nat>)
    ensures c + w + q + (one + rest) == (c + one) + w + q + rest == c + w + (q + one) + rest
    ensures (c + q) + one == (c + one) + q == c + (q + one)
  {}

  lemma CompleteKeeps(depth: nat, q: Line)
    requires Inv(depth, q)
    ensures Inv(depth, Next(depth, q, CompleteOp).0)
  {
    if q.line != [] {
      var after := Next(depth, q, CompleteOp).0;
      assert after.served + after.line == q.served + q.line;
      CompleteKeepsLedgers(depth, q);
      HeadNotYetCompleted(depth, q);
    }
  }

  lemma DisconnectKeeps(depth: nat, q: Line)
    requires Inv(depth, q)
    ensures Inv(depth, Next(depth, q, DisconnectOp).0)
  {
    if q.connected {
      var after := Next(depth, q, DisconnectOp).0;
      assert after.served + after.line == q.served + q.line;
    }
  }

  /** Every call keeps the line bounded, ordered, and every transfer accounted for. */
  lemma NextKeeps(depth: nat, q: Line, op: Op)
    requires Inv(depth, q)
    ensures Inv(depth, Next(depth, q, op).0)
  {
    match op
    case SubmitOp => SubmitKeeps(depth, q);
    case CancelOp(id) => CancelKeeps(depth, q, id);
    case CompleteOp => CompleteKeeps(depth, q);
    case DisconnectOp => DisconnectKeeps(depth, q);
    case ReconnectOp =>
  }

  lemma {:induction false} RunKeeps(depth: nat, ops: seq<Op>)
    ensures Inv(depth, Run(depth, ops).line)
    ensures |Run(depth, ops).replies| == |ops|
  {
    if ops == [] {
      assert Issued(0) == [];
    } else {
      RunKeeps(depth, ops[..|ops| - 1]);
      NextKeeps(depth, Run(depth, ops[..|ops| - 1]).line, ops[|ops| - 1]);
    }
  }

  /** How often an id occurs in the ledgers and the line together. */
  function PlacesOf(q: Line, id: nat): nat {
    multiset(q.completed)[id] + multiset(q.withdrawn)[id] + multiset(q.quarantined)[id] + multiset(q.line)[id]
  }

  /** accepted = completed + withdrawn + quarantined + in line, over every run, and no id occurs twice. */
  lemma TransfersAreConserved(depth: nat, ops: seq<Op>)
    ensures
      var q := Run(depth, ops).line;
      q.nextId - 1 == |q.completed| + |q.withdrawn| + |q.quarantined| + |q.line|
    ensures
      var q := Run(depth, ops).line;
      forall id: nat :: PlacesOf(q, id) == if 1 <= id < q.nextId then 1 else 0
  {
    RunKeeps(depth, ops);
    var q := Run(depth, ops).line;
    LedgerSizes(q);
    forall id: nat
      ensures PlacesOf(q, id) == if 1 <= id < q.nextId then 1 else 0
    {
      OnePlaceEach(q, id);
    }
  }

  lemma OnePlaceEach(q: Line, id: nat)
    requires Conserved(q)
    ensures PlacesOf(q, id) == if 1 <= id < q.nextId then 1 else 0
  {
    IssuedOnce(q.nextId - 1, id);
  }

  lemma LedgerSizes(q: Line)
    requires Conserved(q)
    ensures q.nextId - 1 == |q.completed| + |q.withdrawn| + |q.quarantined| + |q.line|
  {
    assert |multiset(Issued(q.nextId - 1))| == q.nextId - 1;
  }

  lemma {:induction false} IssuedOnce(n: nat, id: nat)
    ensures multiset(Issued(n))[id] == if 1 <= id <= n then 1 else 0
  {
    if n == 0 {
      assert Issued(0) == [];
    } else {
      IssuedGrows(n - 1, n);
      IssuedOnce(n - 1, id);
    }
  }

  /** Ids leave the head in strictly increasing order over the whole run, ahead of all that wait. */
  lemma ServiceIsFifo(depth: nat, ops: seq<Op>)
    ensures
      var q := Run(depth, ops).line;
      Increasing(q.served) && Increasing(q.line) && Increasing(q.completed)
      && forall a, b :: a in q.served && b in q.line ==> a < b
  {
    RunKeeps(depth, ops);
    CompletedInOrder(depth, ops);
    IncreasingParts(Run(depth, ops).line.served, Run(depth, ops).line.line);
  }

  lemma IncreasingParts(a: seq<nat>, b: seq<nat>)
    requires Increasing(a + b)
    ensures Increasing(a) && Increasing(b) && forall x, y :: x in a && y in b ==> x < y
  {
    assert forall i :: 0 <= i < |a| ==> (a + b)[i] == a[i];
    assert forall j :: 0 <= j < |b| ==> (a + b)[|a| + j] == b[j];
  }

  lemma NextKeepsCompletedOrder(depth: nat, q: Line, op: Op)
    requires Inv(depth, q) && Increasing(q.completed)
    ensures Increasing(Next(depth, q, op).0.completed)
  {
    if op.CompleteOp? && q.line != [] {
      forall i | 0 <= i < |q.completed|
        ensures q.completed[i] < q.line[0]
      {
        ServedPrecedesHead(depth, q, q.completed[i]);
      }
    }
  }

  lemma {:induction false} CompletedInOrder(depth: nat, ops: seq<Op>)
    ensures Increasing(Run(depth, ops).line.completed)
  {
    if ops != [] {
      CompletedInOrder(depth, ops[..|ops| - 1]);
      RunKeeps(depth, ops[..|ops| - 1]);
      NextKeepsCompletedOrder(depth, Run(depth, ops[..|ops| - 1]).line, ops[|ops| - 1]);
    }
  }

  lemma ServedPrecedesHead(depth: nat, q: Line, id: nat)
    requires Inv(depth, q) && q.line != [] && id in q.completed
    ensures id < q.line[0]
  {
    assert id in multiset(q.completed);
    assert id in multiset(q.served);
    var i :| 0 <= i < |q.served| && q.served[i] == id;
    var all := q.served + q.line;
    assert all[i] == id && all[|q.served|] == q.line[0];
  }

  /** Once asked to be cancelled while active, a transfer is never reported completed. */
  lemma CancelIntentIsFinal(depth: nat, ops: seq<Op>, id: nat)
    requires id in Run(depth, ops).line.flags
    ensures id !in Run(depth, ops).line.completed
  {
    RunKeeps(depth, ops);
  }

  /** n completions in a row empty a line of n and hand its transfers on in exactly their order. */
  lemma {:induction false} CompletionsDrainInOrder(depth: nat, q: Line, n: nat)
    requires n <= |q.line|
    ensures
      var after := Completions(depth, q, n);
      after.line == q.line[n..] && after.served == q.served + q.line[..n] && after.withdrawn == q.withdrawn
      && after.flags == q.flags
  {
    if n != 0 {
      CompletionsDrainInOrder(depth, q, n - 1);
      OneFurther(q.served, q.line, n);
    } else {
      assert q.line[..0] == [] && q.served + [] == q.served;
    }
  }

  lemma OneFurther(served: seq<nat>, line: seq<nat>, n: nat)
    requires 0 < n <= |line|
    ensures line[n - 1..] != [] && line[n - 1..][0] == line[n - 1] && line[n - 1..][1..] == line[n..]
    ensures served + line[..n - 1] + [line[n - 1]] == served + line[..n]
  {
    assert line[..n] == line[..n - 1] + [line[n - 1]];
  }

  function Completions(depth: nat, q: Line, n: nat): Line {
    if n == 0 then q else Next(depth, Completions(depth, q, n - 1), CompleteOp).0
  }
}
