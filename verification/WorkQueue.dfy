/** The work-lease queue: submit, lease with expiry reclaim, complete under a fencing token. */
module WorkQueue {
  import opened Common

  // `uuid4().hex` is always thirty-two lower-case hex digits, so ids and tokens compare as numbers.
  type WorkId = nat
  type Token = nat
  type NodeId = string

  datatype Lease = Lease(node: NodeId, token: Token, expires: int)

  datatype Completion = Completion(node: NodeId, delta: string, completed: int)

  datatype Status = Ready | Leased(lease: Lease) | Complete(result: Completion)

  datatype Item = Item(
    workId: WorkId, capability: string, delta: string, priority: int, status: Status, created: int, updated: int,
    provenance: string)

  type Board = map<WorkId, Item>

  datatype Node = Node(id: NodeId, capabilities: set<string>)

  // ---- What each call does to the board -------------------------------------------------------

  function NewItem(id: WorkId, capability: string, delta: string, priority: int, provenance: string, now: int): Item {
    Item(id, capability, delta, priority, Ready, now, now, provenance)
  }

  predicate Lapsed(item: Item, now: int) {
    item.status.Leased? && item.status.lease.expires <= now
  }

  function Reclaim(item: Item, now: int): Item {
    if Lapsed(item, now) then item.(status := Ready) else item
  }

  /** The board after the expiry sweep that opens every `lease` call. */
  function Swept(board: Board, now: int): Board {
    map id | id in board :: Reclaim(board[id], now)
  }

  predicate Candidate(item: Item, node: Node) {
    item.status.Ready? && item.capability in node.capabilities
  }

  /** The sort key of the source: priority, then age, then id. */
  predicate Precedes(a: Item, b: Item) {
    || a.priority < b.priority
    || (a.priority == b.priority && a.created < b.created)
    || (a.priority == b.priority && a.created == b.created && a.workId <= b.workId)
  }

  ghost predicate IsFirst(board: Board, node: Node, id: WorkId) {
    && id in board && Candidate(board[id], node)
    && forall other :: other in board && Candidate(board[other], node) ==> Precedes(board[id], board[other])
  }

  ghost predicate NoneEligible(board: Board, node: Node) {
    forall id :: id in board ==> !Candidate(board[id], node)
  }

  function Ttl(requested: int): int {
    if requested < 5 then 5 else if requested > 3600 then 3600 else requested
  }

  function Grant(board: Board, node: Node, id: WorkId, token: Token, now: int, ttl: int): Board
    requires id in board
  {
    board[id := board[id].(status := Leased(Lease(node.id, token, now + Ttl(ttl))), updated := now)]
  }

  datatype CompleteError = UnknownWork | InvalidLease | LeaseExpired | Unverified

  /** The checks of `complete`, in order; `now` is the clock read between the lease and the expiry checks. */
  function CompletionVerdict(board: Board, id: WorkId, node: NodeId, token: Token, verified: bool, now: int)
    : Result<(), CompleteError>
  {
    if id !in board then Err(UnknownWork)
    else
      var status := board[id].status;
      if !status.Leased? || status.lease.node != node || status.lease.token != token then Err(InvalidLease)
      else if status.lease.expires < now then Err(LeaseExpired)
      else if !verified then Err(Unverified)
      else Ok(())
  }

  function Finish(board: Board, id: WorkId, node: NodeId, delta: string, completedAt: int, updatedAt: int): Board
    requires id in board
  {
    board[id := board[id].(status := Complete(Completion(node, delta, completedAt)), updated := updatedAt)]
  }

  /** Keys and ids agree. */
  ghost predicate Keyed(board: Board) {
    forall id :: id in board ==> board[id].workId == id
  }

  datatype SubmitError = InvalidWork | NotReversible

  class SlushWorkQueue {
    var work: Board

    constructor ()
      ensures work == map[]
    {
      work := map[];
    }

    /** `newId` is the uuid drawn for the item; `now` the clock reading. */
    method Submit(capability: string, delta: string, priority: int, reversible: bool, provenance: string,
                  newId: WorkId, now: int)
      returns (r: Result<Item, SubmitError>)
      modifies this
      ensures r.Ok? <==> capability != "" && reversible
      ensures r.Ok? ==> r.value == NewItem(newId, capability, delta, priority, provenance, now)
                        && work == old(work)[newId := r.value]
      ensures r.Err? ==> work == old(work)
    {
      if capability == "" {
        return Err(InvalidWork);
      }
      if !reversible {
        return Err(NotReversible);
      }
      var item := Item(newId, capability, delta, priority, Ready, now, now, provenance);
      work := work[newId := item];
      r := Ok(item);
    }

    /** Reclaims every lapsed lease, then hands out the first candidate in key order, or nothing. */
    method Acquire(node: Node, ttl: int, token: Token, now: int) returns (r: Option<WorkId>)
      requires Keyed(work)
      modifies this
      ensures r.None? ==> NoneEligible(Swept(old(work), now), node) && work == Swept(old(work), now)
      ensures r.Some? ==> IsFirst(Swept(old(work), now), node, r.value)
                          && work == Grant(Swept(old(work), now), node, r.value, token, now, ttl)
    {
      Sweep(now);
      var best: Option<WorkId> := None;
      var rest := work.Keys;
      while rest != {}
        invariant rest <= work.Keys && work == Swept(old(work), now) && Keyed(work)
        invariant best.None? ==> forall id :: id in work.Keys - rest ==> !Candidate(work[id], node)
        invariant best.Some? ==>
                    best.value in work && Candidate(work[best.value], node)
                    && forall id :: id in work.Keys - rest && Candidate(work[id], node) ==>
                         Precedes(work[best.value], work[id])
        decreases |rest|
      {
        var id :| id in rest;
        rest := rest - {id};
        if Candidate(work[id], node) && (best.None? || !Precedes(work[best.value], work[id])) {
          best := Some(id);
        }
      }
      if best.None? {
        return None;
      }
      work := work[best.value := work[best.value].(
                     status := Leased(Lease(node.id, token, now + Ttl(ttl))), updated := now)];
      r := best;
    }

    /** The expiry loop over `self.work.values()`. */
    method Sweep(now: int)
      modifies this
      ensures work == Swept(old(work), now)
    {
      var rest := work.Keys;
      while rest != {}
        invariant rest <= work.Keys == old(work).Keys
        invariant forall id :: id in work ==>
                    work[id] == if id in rest then old(work)[id] else Reclaim(old(work)[id], now)
        decreases |rest|
      {
        var id :| id in rest;
        rest := rest - {id};
        var item := work[id];
        if item.status.Leased? && item.status.lease.expires <= now {
          work := work[id := item.(status := Ready)];
        }
      }
    }

    /** The clock is read once for the expiry check and again for each of the two stamps. */
    method Close(id: WorkId, node: NodeId, token: Token, delta: string, verified: bool,
                 checkedAt: int, completedAt: int, updatedAt: int)
      returns (r: Result<(), CompleteError>)
      modifies this
      ensures r == CompletionVerdict(old(work), id, node, token, verified, checkedAt)
      ensures work == if r.Ok? then Finish(old(work), id, node, delta, completedAt, updatedAt) else old(work)
    {
      if id !in work {
        return Err(UnknownWork);
      }
      var item := work[id];
      if !item.status.Leased? || item.status.lease.node != node || item.status.lease.token != token {
        return Err(InvalidLease);
      }
      if item.status.lease.expires < checkedAt {
        return Err(LeaseExpired);
      }
      if !verified {
        return Err(Unverified);
      }
      work := work[id := item.(status := Complete(Completion(node, delta, completedAt)), updated := updatedAt)];
      r := Ok(());
    }
  }

  // ---- Every interleaving ---------------------------------------------------------------------

  /** One call by some worker, with the values the environment supplied to it. */
  datatype Call =
    | SubmitCall(newId: WorkId, capability: string, delta: string, priority: int, provenance: string, now: int)
    | LeaseCall(node: Node, ttl: int, token: Token, chosen: Option<WorkId>, now: int)
    | CompleteCall(id: WorkId, nodeId: NodeId, claim: Token, result: string, verified: bool,
                   now: int, completedAt: int, updatedAt: int)

  /** A lease that was handed out, or a completion that was accepted. */
  datatype Event =
    | Granted(id: WorkId, node: NodeId, token: Token, from: int, until: int)
    | Finished(id: WorkId, token: Token, at: int)

  /** The board, the clock of the latest call, and everything that ever happened. */
  datatype World = World(board: Board, clock: int, log: seq<Event>)

  ghost predicate FreshToken(log: seq<Event>, token: Token) {
    forall i :: 0 <= i < |log| && log[i].Granted? ==> log[i].token != token
  }

  /** The clock never runs backwards, drawn ids and tokens are new, and a lease picks what `Acquire` picks. */
  ghost predicate Fair(w: World, c: Call) {
    && w.clock <= c.now
    && match c
       case SubmitCall(newId, _, _, _, _, _) => newId !in w.board
       case LeaseCall(node, _, token, chosen, now) =>
         && FreshToken(w.log, token)
         && (if chosen.Some? then IsFirst(Swept(w.board, now), node, chosen.value)
             else NoneEligible(Swept(w.board, now), node))
       case CompleteCall(_, _, _, _, _, now, completedAt, updatedAt) => now <= completedAt <= updatedAt
  }

  predicate Succeeds(w: World, c: Call)
    requires c.CompleteCall?
  {
    CompletionVerdict(w.board, c.id, c.nodeId, c.claim, c.verified, c.now).Ok?
  }

  function Step(w: World, c: Call): World {
    match c
    case SubmitCall(newId, capability, delta, priority, provenance, now) =>
      World(w.board[newId := NewItem(newId, capability, delta, priority, provenance, now)], now, w.log)
    case LeaseCall(node, ttl, token, chosen, now) =>
      var swept := Swept(w.board, now);
      if chosen.None? || chosen.value !in swept then World(swept, now, w.log)
      else World(Grant(swept, node, chosen.value, token, now, ttl), now,
                 w.log + [Granted(chosen.value, node.id, token, now, now + Ttl(ttl))])
    case CompleteCall(id, nodeId, claim, result, _, now, completedAt, updatedAt) =>
      if Succeeds(w, c) then World(Finish(w.board, id, nodeId, result, completedAt, updatedAt), updatedAt,
                                   w.log + [Finished(id, claim, now)])
      else World(w.board, now, w.log)
  }

  function After(w: World, calls: seq<Call>): World {
    if calls == [] then w else Step(After(w, calls[..|calls| - 1]), calls[|calls| - 1])
  }

  ghost predicate FairRun(w: World, calls: seq<Call>) {
    calls == [] || (
      FairRun(w, calls[..|calls| - 1]) && Fair(After(w, calls[..|calls| - 1]), calls[|calls| - 1]))
  }

  // ---- What every run keeps -------------------------------------------------------------------

  /** Two events on one item: the first is a lease, and it was over before the second began. */
  ghost predicate InOrder(a: Event, b: Event) {
    a.id == b.id ==>
      && a.Granted?
      && (b.Granted? ==> a.until <= b.from && a.token != b.token)
      && (b.Finished? && b.token == a.token ==> a.from <= b.at <= a.until)
      && (b.Finished? && b.token != a.token ==> a.until <= b.at)
  }

  ghost predicate OrderedLog(log: seq<Event>) {
    && (forall i, j :: 0 <= i < j < |log| ==> InOrder(log[i], log[j]))
    && (forall i :: 0 <= i < |log| && log[i].Granted? ==> log[i].from < log[i].until)
  }

  /** `i` is the position of the latest lease on `id`. */
  ghost predicate LatestGrant(log: seq<Event>, id: WorkId, i: int) {
    && 0 <= i < |log| && log[i].Granted? && log[i].id == id
    && forall j :: i < j < |log| ==> log[j].id != id
  }

  ghost predicate BoardMatchesLog(board: Board, log: seq<Event>, clock: int) {
    forall id :: id in board ==> ItemMatchesLog(board[id], id, log, clock)
  }

  ghost predicate ItemMatchesLog(item: Item, id: WorkId, log: seq<Event>, clock: int) {
    match item.status
    case Ready => forall i :: 0 <= i < |log| && log[i].id == id ==> log[i].Granted? && log[i].until <= clock
    case Leased(lease) => exists i :: HeldBy(lease, id, log, clock, i)
    case Complete(_) => exists i :: 0 <= i < |log| && log[i].Finished? && log[i].id == id
  }

  ghost predicate HeldBy(lease: Lease, id: WorkId, log: seq<Event>, clock: int, i: int) {
    && LatestGrant(log, id, i) && log[i].from <= clock
    && log[i].node == lease.node && log[i].token == lease.token && log[i].until == lease.expires
  }

  ghost predicate Inv(w: World) {
    && Keyed(w.board)
    && OrderedLog(w.log)
    && (forall i :: 0 <= i < |w.log| ==> w.log[i].id in w.board)
    && BoardMatchesLog(w.board, w.log, w.clock)
  }

  lemma MatchAges(item: Item, id: WorkId, log: seq<Event>, clock: int, later: int)
    requires ItemMatchesLog(item, id, log, clock) && clock <= later
    ensures ItemMatchesLog(item, id, log, later)
  {
    if item.status.Leased? {
      var i :| HeldBy(item.status.lease, id, log, clock, i);
      assert HeldBy(item.status.lease, id, log, later, i);
    }
  }

  /** Nothing on this item happened after its latest lease ran out. */
  lemma LapsedMatches(item: Item, id: WorkId, log: seq<Event>, clock: int, now: int)
    requires OrderedLog(log) && ItemMatchesLog(item, id, log, clock) && clock <= now && Lapsed(item, now)
    ensures ItemMatchesLog(item.(status := Ready), id, log, now)
  {
    var i :| HeldBy(item.status.lease, id, log, clock, i);
    forall j | 0 <= j < |log| && log[j].id == id
      ensures log[j].Granted? && log[j].until <= now
    {
      assert j <= i;
      if j < i { assert InOrder(log[j], log[i]); }
    }
  }

  lemma SweepKeeps(w: World, now: int)
    requires Inv(w) && w.clock <= now
    ensures Inv(World(Swept(w.board, now), now, w.log))
  {
    forall id | id in w.board
      ensures ItemMatchesLog(Swept(w.board, now)[id], id, w.log, now)
    {
      assert ItemMatchesLog(w.board[id], id, w.log, w.clock);
      if Lapsed(w.board[id], now) {
        LapsedMatches(w.board[id], id, w.log, w.clock, now);
      } else {
        MatchAges(w.board[id], id, w.log, w.clock, now);
      }
    }
  }

  /** An event on another item leaves this one's story as it was. */
  lemma UnrelatedEvent(item: Item, id: WorkId, log: seq<Event>, clock: int, e: Event)
    requires ItemMatchesLog(item, id, log, clock) && e.id != id
    ensures ItemMatchesLog(item, id, log + [e], clock)
  {
    var grown := log + [e];
    assert forall i :: 0 <= i < |log| ==> grown[i] == log[i];
    match item.status
    case Ready =>
    case Leased(lease) =>
      var i :| HeldBy(lease, id, log, clock, i);
      assert HeldBy(lease, id, grown, clock, i);
    case Complete(_) =>
      var i :| 0 <= i < |log| && log[i].Finished? && log[i].id == id;
      assert grown[i].Finished?;
  }

  lemma LogGrows(log: seq<Event>, e: Event)
    requires OrderedLog(log) && (e.Granted? ==> e.from < e.until)
    requires forall i :: 0 <= i < |log| ==> InOrder(log[i], e)
    ensures OrderedLog(log + [e])
  {
    var grown := log + [e];
    forall i, j | 0 <= i < j < |grown|
      ensures InOrder(grown[i], grown[j])
    {
      if j < |log| { assert InOrder(log[i], log[j]); }
    }
  }

  lemma GrantKeeps(w: World, node: Node, id: WorkId, token: Token, ttl: int)
    requires Inv(w) && id in w.board && w.board[id].status.Ready?
    requires FreshToken(w.log, token)
    ensures
      var e := Granted(id, node.id, token, w.clock, w.clock + Ttl(ttl));
      Inv(World(Grant(w.board, node, id, token, w.clock, ttl), w.clock, w.log + [e]))
  {
    var e := Granted(id, node.id, token, w.clock, w.clock + Ttl(ttl));
    var board := Grant(w.board, node, id, token, w.clock, ttl);
    assert ItemMatchesLog(w.board[id], id, w.log, w.clock);
    LogGrows(w.log, e);
    forall other | other in board
      ensures ItemMatchesLog(board[other], other, w.log + [e], w.clock)
    {
      if other == id {
        assert HeldBy(board[id].status.lease, id, w.log + [e], w.clock, |w.log|);
      } else {
        assert ItemMatchesLog(w.board[other], other, w.log, w.clock);
        UnrelatedEvent(w.board[other], other, w.log, w.clock, e);
      }
    }
  }

  lemma FinishKeeps(w: World, c: Call)
    requires Inv(w) && c.CompleteCall? && Fair(w, c) && Succeeds(w, c)
    ensures Inv(Step(w, c))
  {
    var e := Finished(c.id, c.claim, c.now);
    var lease := w.board[c.id].status.lease;
    assert ItemMatchesLog(w.board[c.id], c.id, w.log, w.clock);
    var i :| HeldBy(lease, c.id, w.log, w.clock, i);
    forall j | 0 <= j < |w.log|
      ensures InOrder(w.log[j], e)
    {
      if w.log[j].id == c.id {
        assert j <= i;
        if j < i { assert InOrder(w.log[j], w.log[i]); }
      }
    }
    LogGrows(w.log, e);
    var after := Step(w, c);
    forall other | other in after.board
      ensures ItemMatchesLog(after.board[other], other, after.log, after.clock)
    {
      if other == c.id {
        assert after.log[|w.log|] == e;
      } else {
        assert ItemMatchesLog(w.board[other], other, w.log, w.clock);
        UnrelatedEvent(w.board[other], other, w.log, w.clock, e);
        MatchAges(w.board[other], other, after.log, w.clock, after.clock);
      }
    }
  }

  lemma IdleKeeps(w: World, now: int)
    requires Inv(w) && w.clock <= now
    ensures Inv(World(w.board, now, w.log))
  {
    forall id | id in w.board
      ensures ItemMatchesLog(w.board[id], id, w.log, now)
    {
      assert ItemMatchesLog(w.board[id], id, w.log, w.clock);
      MatchAges(w.board[id], id, w.log, w.clock, now);
    }
  }

  lemma SubmitKeeps(w: World, c: Call)
    requires Inv(w) && c.SubmitCall? && Fair(w, c)
    ensures Inv(Step(w, c))
  {
    IdleKeeps(w, c.now);
    assert forall i :: 0 <= i < |w.log| ==> w.log[i].id != c.newId;
    var after := Step(w, c);
    forall id | id in after.board
      ensures ItemMatchesLog(after.board[id], id, after.log, c.now)
    {
      if id != c.newId { assert ItemMatchesLog(w.board[id], id, w.log, c.now); }
    }
  }

  lemma LeaseKeeps(w: World, c: Call, swept: World)
    requires c.LeaseCall? && Fair(w, c) && swept == World(Swept(w.board, c.now), c.now, w.log) && Inv(swept)
    ensures Inv(Step(w, c))
  {
    if c.chosen.Some? {
      GrantKeeps(swept, c.node, c.chosen.value, c.token, c.ttl);
      var e := Granted(c.chosen.value, c.node.id, c.token, swept.clock, swept.clock + Ttl(c.ttl));
      assert Step(w, c)
          == World(Grant(swept.board, c.node, c.chosen.value, c.token, swept.clock, c.ttl), swept.clock, swept.log + [e]);
    }
  }

  /** Every call of every worker keeps the board and the log in step. */
  lemma StepKeeps(w: World, c: Call)
    requires Inv(w) && Fair(w, c)
    ensures Inv(Step(w, c))
  {
    match c
    case SubmitCall(_, _, _, _, _, _) => SubmitKeeps(w, c);
    case LeaseCall(_, _, _, _, now) =>
      SweepKeeps(w, now);
      LeaseKeeps(w, c, World(Swept(w.board, now), now, w.log));
    case CompleteCall(_, _, _, _, _, now, _, _) =>
      if Succeeds(w, c) { FinishKeeps(w, c); } else { IdleKeeps(w, now); }
  }

  lemma {:induction false} RunKeeps(w: World, calls: seq<Call>)
    requires Inv(w) && FairRun(w, calls)
    ensures Inv(After(w, calls))
  {
    if calls != [] {
      RunKeeps(w, calls[..|calls| - 1]);
      StepKeeps(After(w, calls[..|calls| - 1]), calls[|calls| - 1]);
    }
  }

  /**
   * Fencing. Over every interleaving from an empty queue: two leases on one item never overlap; an event before a
   * completion of the same item is a lease, in time and the last of the item when its token is the completion's;
   * no item completes twice or is leased again after completing.
   */
  lemma LeasesAreFenced(start: int, calls: seq<Call>, i: nat, j: nat)
    requires FairRun(World(map[], start, []), calls)
    requires
      var log := After(World(map[], start, []), calls).log;
      i < j < |log| && log[i].id == log[j].id
    ensures
      var log := After(World(map[], start, []), calls).log;
      && log[i].Granted?
      && (log[j].Granted? ==> log[i].until <= log[j].from)
      && (log[j].Finished? && log[j].token == log[i].token ==> log[i].from <= log[j].at <= log[i].until)
      && (log[j].Finished? && log[j].token == log[i].token ==>
            forall k :: i < k < |log| && k != j ==> log[k].id != log[i].id)
  {
    var w := After(World(map[], start, []), calls);
    RunKeeps(World(map[], start, []), calls);
    assert InOrder(w.log[i], w.log[j]);
    if w.log[j].Finished? && w.log[j].token == w.log[i].token {
      forall k | i < k < |w.log| && k != j
        ensures w.log[k].id != w.log[i].id
      {
        assert InOrder(w.log[i], w.log[k]);
        if k < j { assert InOrder(w.log[k], w.log[j]); } else { assert InOrder(w.log[j], w.log[k]); }
      }
    }
  }

  /** The lease at i is the one that the completion at j ends: nothing happened to the item between the two. */
  ghost predicate EndsLease(log: seq<Event>, i: int, j: int) {
    && 0 <= i < j < |log| && log[i].Granted? && log[j].Finished?
    && log[i].id == log[j].id && log[i].token == log[j].token && log[i].from <= log[j].at <= log[i].until
    && forall k :: i < k < j ==> log[k].id != log[j].id
  }

  ghost predicate AllCompletionsBacked(log: seq<Event>) {
    forall j :: 0 <= j < |log| && log[j].Finished? ==> exists i :: EndsLease(log, i, j)
  }

  lemma BackingKept(log: seq<Event>, e: Event)
    requires AllCompletionsBacked(log)
    requires e.Finished? ==> exists i :: EndsLease(log + [e], i, |log|)
    ensures AllCompletionsBacked(log + [e])
  {
    var grown := log + [e];
    forall j | 0 <= j < |grown| && grown[j].Finished?
      ensures exists i :: EndsLease(grown, i, j)
    {
      if j < |log| {
        var i :| EndsLease(log, i, j);
        assert EndsLease(grown, i, j);
      }
    }
  }

  lemma FinishIsBacked(w: World, c: Call)
    requires Inv(w) && c.CompleteCall? && Fair(w, c) && Succeeds(w, c)
    ensures exists i :: EndsLease(w.log + [Finished(c.id, c.claim, c.now)], i, |w.log|)
  {
    var lease := w.board[c.id].status.lease;
    assert ItemMatchesLog(w.board[c.id], c.id, w.log, w.clock);
    var i :| HeldBy(lease, c.id, w.log, w.clock, i);
    assert EndsLease(w.log + [Finished(c.id, c.claim, c.now)], i, |w.log|);
  }

  lemma {:induction false} RunIsBacked(start: int, calls: seq<Call>)
    requires FairRun(World(map[], start, []), calls)
    ensures AllCompletionsBacked(After(World(map[], start, []), calls).log)
  {
    if calls != [] {
      var before, c := calls[..|calls| - 1], calls[|calls| - 1];
      RunIsBacked(start, before);
      RunKeeps(World(map[], start, []), before);
      var w := After(World(map[], start, []), before);
      if c.CompleteCall? && Succeeds(w, c) { FinishIsBacked(w, c); }
      if |Step(w, c).log| > |w.log| { BackingKept(w.log, Step(w, c).log[|w.log|]); }
    }
  }

  /**
   * Over every interleaving from an empty queue, a completion carries the token of the latest lease on its item,
   * within that lease's time: a lease was granted with that token, and nothing happened to the item in between.
   */
  lemma CompletionsCarryTheLatestLease(start: int, calls: seq<Call>, j: nat) returns (i: nat)
    requires FairRun(World(map[], start, []), calls)
    requires
      var log := After(World(map[], start, []), calls).log;
      j < |log| && log[j].Finished?
    ensures
      var log := After(World(map[], start, []), calls).log;
      && i < j && log[i].Granted? && log[i].id == log[j].id && log[i].token == log[j].token
      && log[i].from <= log[j].at <= log[i].until
      && forall k :: i < k < |log| && k != j ==> log[k].id != log[j].id
  {
    var log := After(World(map[], start, []), calls).log;
    RunIsBacked(start, calls);
    i :| EndsLease(log, i, j);
    forall k | j < k < |log|
      ensures log[k].id != log[j].id
    {
      if log[k].id == log[j].id { LeasesAreFenced(start, calls, j, k); }
    }
  }

  /** A worker whose lease was superseded, or whose item is finished, is refused whatever it presents. */
  lemma SupersededIsRefused(w: World, i: nat, j: nat, node: NodeId, verified: bool, now: int)
    requires Inv(w) && i < j < |w.log| && w.log[i].Granted? && w.log[j].id == w.log[i].id
    ensures CompletionVerdict(w.board, w.log[i].id, node, w.log[i].token, verified, now) == Err(InvalidLease)
  {
    var id := w.log[i].id;
    assert ItemMatchesLog(w.board[id], id, w.log, w.clock);
    if w.board[id].status.Leased? {
      var k :| HeldBy(w.board[id].status.lease, id, w.log, w.clock, k);
      assert j <= k && InOrder(w.log[i], w.log[k]);
    }
  }

  /** The one instant at which an unexpired completion and a reclaiming sweep are both possible is the expiry itself. */
  lemma OnlyTheExpiryInstantIsShared(board: Board, id: WorkId, node: NodeId, token: Token, now: int)
    requires id in board && board[id].status.Leased?
    requires board[id].status.lease.node == node && board[id].status.lease.token == token
    ensures CompletionVerdict(board, id, node, token, true, now).Ok? && Lapsed(board[id], now)
            <==> now == board[id].status.lease.expires
  {}

  /** What a call may never touch, and what it may do to a status. */
  ghost predicate Descends(old': Item, new': Item) {
    && new'.(status := old'.status, updated := old'.updated) == old'
    && (old'.status.Complete? ==> new' == old')
  }

  lemma StepDescends(w: World, c: Call, id: WorkId)
    requires Inv(w) && Fair(w, c) && id in w.board
    ensures id in Step(w, c).board && Descends(w.board[id], Step(w, c).board[id])
  {}

  /** No item is ever lost or rewritten, and a completed one keeps its result for ever. */
  lemma {:induction false} WorkIsDurable(w: World, calls: seq<Call>, id: WorkId)
    requires Inv(w) && FairRun(w, calls) && id in w.board
    ensures id in After(w, calls).board && Descends(w.board[id], After(w, calls).board[id])
  {
    if calls != [] {
      var before := calls[..|calls| - 1];
      WorkIsDurable(w, before, id);
      RunKeeps(w, before);
      StepDescends(After(w, before), calls[|calls| - 1], id);
    }
  }

  // ---- Draining -------------------------------------------------------------------------------

  /** One turn of a worker's loop: the time of its `lease`, of its `complete`, and the token drawn. */
  datatype Turn = Turn(leaseAt: int, ttl: int, token: Token, checkedAt: int, completedAt: int, updatedAt: int, delta: string)

  ghost predicate Prompt(turn: Turn) {
    turn.leaseAt <= turn.checkedAt <= turn.leaseAt + Ttl(turn.ttl) && turn.checkedAt <= turn.completedAt <= turn.updatedAt
  }

  function Incomplete(board: Board): set<WorkId> {
    set id | id in board && !board[id].status.Complete?
  }

  /** Whatever is not finished is free for the node to take at time `now`. */
  ghost predicate Unclaimed(board: Board, node: Node, now: int) {
    && Keyed(board)
    && forall id :: id in Incomplete(board) ==>
         board[id].capability in node.capabilities && !(board[id].status.Leased? && board[id].status.lease.expires > now)
  }

  /** The first unfinished item in key order. */
  ghost predicate FirstIncomplete(board: Board, id: WorkId) {
    id in Incomplete(board) && forall other :: other in Incomplete(board) ==> Precedes(board[id], board[other])
  }

  lemma UnclaimedMeansCandidate(board: Board, node: Node, now: int, id: WorkId)
    requires Unclaimed(board, node, now) && id in board
    ensures Candidate(Swept(board, now)[id], node) <==> id in Incomplete(board)
  {}

  /** One turn: the lease call must pick the first unfinished item, and its completion is accepted. */
  lemma TurnFinishesFirst(board: Board, node: Node, turn: Turn, chosen: Option<WorkId>)
    requires Unclaimed(board, node, turn.leaseAt) && Prompt(turn)
    requires if chosen.Some? then IsFirst(Swept(board, turn.leaseAt), node, chosen.value)
             else NoneEligible(Swept(board, turn.leaseAt), node)
    ensures chosen.None? <==> Incomplete(board) == {}
    ensures chosen.Some? ==> FirstIncomplete(board, chosen.value)
    ensures chosen.Some? ==>
              var granted := Grant(Swept(board, turn.leaseAt), node, chosen.value, turn.token, turn.leaseAt, turn.ttl);
              CompletionVerdict(granted, chosen.value, node.id, turn.token, true, turn.checkedAt).Ok?
  {
    forall id | id in board
      ensures Candidate(Swept(board, turn.leaseAt)[id], node) <==> id in Incomplete(board)
    {
      UnclaimedMeansCandidate(board, node, turn.leaseAt, id);
    }
    if chosen.Some? {
      forall other | other in Incomplete(board)
        ensures Precedes(board[chosen.value], board[other])
      {
        assert Candidate(Swept(board, turn.leaseAt)[other], node);
      }
    }
    if chosen.None? {
      assert forall id :: id in board ==> !Candidate(Swept(board, turn.leaseAt)[id], node);
      assert Incomplete(board) == {};
    }
  }

  ghost function AfterTurn(board: Board, node: Node, turn: Turn, id: WorkId): Board
    requires id in board
  {
    Finish(Grant(Swept(board, turn.leaseAt), node, id, turn.token, turn.leaseAt, turn.ttl),
           id, node.id, turn.delta, turn.completedAt, turn.updatedAt)
  }

  lemma TurnLeavesRest(board: Board, node: Node, turn: Turn, id: WorkId, next: int)
    requires Unclaimed(board, node, turn.leaseAt) && FirstIncomplete(board, id) && turn.leaseAt <= next
    ensures Unclaimed(AfterTurn(board, node, turn, id), node, next)
    ensures Finishes(board, AfterTurn(board, node, turn, id), id)
  {}

  ghost predicate Chronological(turns: seq<Turn>) {
    && (forall i :: 0 <= i < |turns| ==> Prompt(turns[i]))
    && forall i, j :: 0 <= i < j < |turns| ==> turns[i].updatedAt <= turns[j].leaseAt
  }

  ghost predicate SameKey(a: Item, b: Item) {
    a.priority == b.priority && a.created == b.created && a.workId == b.workId
  }

  /** `done` lists, in key order, what has been finished since `before`; it precedes all that is left. */
  ghost predicate Progress(before: Board, board: Board, done: seq<WorkId>) {
    && board.Keys == before.Keys
    && (forall id :: id in before ==> SameKey(before[id], board[id]))
    && Distinct(done)
    && SetOf(done) + Incomplete(board) == Incomplete(before) && SetOf(done) !! Incomplete(board)
    && InKeyOrder(before, done)
    && (forall i :: 0 <= i < |done| ==> PrecedesAllLeft(before, done[i], board))
  }

  ghost predicate PrecedesAllLeft(before: Board, id: WorkId, board: Board) {
    id in before && forall other :: other in board && !board[other].status.Complete? && other in before ==>
      Precedes(before[id], before[other])
  }

  ghost predicate InKeyOrder(board: Board, ids: seq<WorkId>) {
    && (forall i :: 0 <= i < |ids| ==> ids[i] in board)
    && forall i, j :: 0 <= i < j < |ids| ==> Precedes(board[ids[i]], board[ids[j]])
  }

  /** One item is finished, the first in key order; nothing else becomes finished or changes its key. */
  ghost predicate Finishes(board: Board, after: Board, id: WorkId) {
    && FirstIncomplete(board, id) && after.Keys == board.Keys
    && Incomplete(after) == Incomplete(board) - {id}
    && forall other :: other in board ==> SameKey(board[other], after[other])
  }

  lemma TurnProgresses(before: Board, board: Board, after: Board, done: seq<WorkId>, id: WorkId)
    requires Progress(before, board, done) && Finishes(board, after, id)
    ensures Progress(before, after, done + [id]) && |Incomplete(after)| == |Incomplete(board)| - 1
  {
    SnocKeepsOrder(before, board, done, id);
    StaysAhead(before, board, after, done, id);
    assert SetOf(done + [id]) == SetOf(done) + {id};
  }

  /** What has been finished comes before all that is left. */
  lemma StaysAhead(before: Board, board: Board, after: Board, done: seq<WorkId>, id: WorkId)
    requires Progress(before, board, done) && Finishes(board, after, id)
    ensures forall i :: 0 <= i < |done + [id]| ==> PrecedesAllLeft(before, (done + [id])[i], after)
  {
    assert forall other :: other in Incomplete(after) ==> other in Incomplete(board);
    forall i | 0 <= i < |done|
      ensures PrecedesAllLeft(before, done[i], after)
    {
      assert PrecedesAllLeft(before, done[i], board);
    }
  }

  /** What is finished next comes after everything finished so far. */
  lemma SnocKeepsOrder(before: Board, board: Board, done: seq<WorkId>, id: WorkId)
    requires Progress(before, board, done) && id in Incomplete(board)
    ensures InKeyOrder(before, done + [id]) && Distinct(done + [id])
  {
    var more := done + [id];
    assert forall i :: 0 <= i < |done| ==> more[i] == done[i] && done[i] in SetOf(done);
    forall i | 0 <= i < |done|
      ensures Precedes(before[done[i]], before[id])
    {
      assert PrecedesAllLeft(before, done[i], board);
    }
  }

  lemma NothingDoneYet(board: Board)
    ensures Progress(board, board, [])
  {}

  /** After `n` turns: what is done, what is left, and that the next turn finds it unclaimed. */
  ghost predicate Midway(before: Board, board: Board, done: seq<WorkId>, node: Node, turns: seq<Turn>, n: nat) {
    && n <= |turns| && |done| == n && |Incomplete(board)| == |turns| - n && Progress(before, board, done)
    && (n < |turns| ==> Unclaimed(board, node, turns[n].leaseAt))
  }

  lemma MidwayMeans(before: Board, board: Board, done: seq<WorkId>, node: Node, turns: seq<Turn>, n: nat)
    requires Midway(before, board, done, node, turns, n) && n < |turns| && Chronological(turns)
    ensures Incomplete(board) != {} && Prompt(turns[n]) && Unclaimed(board, node, turns[n].leaseAt)
    ensures n + 1 < |turns| ==> turns[n].leaseAt <= turns[n + 1].leaseAt
  {}

  lemma Drained(before: Board, board: Board, done: seq<WorkId>)
    requires Progress(before, board, done) && |Incomplete(board)| == 0
    ensures Incomplete(board) == {} && board.Keys == before.Keys
    ensures Distinct(done) && SetOf(done) == Incomplete(before) && InKeyOrder(before, done)
  {}

  /** One pass of the worker's loop: lease, then complete what was leased. */
  method WorkOnce(queue: SlushWorkQueue, node: Node, turn: Turn, next: int) returns (id: WorkId)
    requires Unclaimed(queue.work, node, turn.leaseAt) && Prompt(turn) && turn.leaseAt <= next
    requires Incomplete(queue.work) != {}
    modifies queue
    ensures Finishes(old(queue.work), queue.work, id) && Unclaimed(queue.work, node, next)
    ensures queue.work[id] == old(queue.work)[id].(
              status := Complete(Completion(node.id, turn.delta, turn.completedAt)), updated := turn.updatedAt)
    ensures forall other :: other in queue.work && other != id ==>
              queue.work[other] == Reclaim(old(queue.work)[other], turn.leaseAt)
  {
    ghost var board := queue.work;
    var chosen := queue.Acquire(node, turn.ttl, turn.token, turn.leaseAt);
    TurnFinishesFirst(board, node, turn, chosen);
    id := chosen.value;
    TurnLeavesRest(board, node, turn, id, next);
    var r := queue.Close(id, node.id, turn.token, turn.delta, true, turn.checkedAt, turn.completedAt, turn.updatedAt);
  }

  /**
   * The worker loop. With every unfinished item within its capabilities and no live foreign lease, n
   * turns finish exactly the n unfinished items, in (priority, created, id) order, and every completion
   * is accepted.
   */
  method Drain(queue: SlushWorkQueue, node: Node, turns: seq<Turn>) returns (done: seq<WorkId>)
    requires turns != [] ==> Unclaimed(queue.work, node, turns[0].leaseAt)
    requires Chronological(turns) && |turns| == |Incomplete(queue.work)|
    modifies queue
    ensures Incomplete(queue.work) == {} && queue.work.Keys == old(queue.work).Keys
    ensures Distinct(done) && SetOf(done) == old(Incomplete(queue.work)) && |done| == |turns|
    ensures InKeyOrder(old(queue.work), done)
  {
    done := [];
    ghost var before := queue.work;
    var n := 0;
    NothingDoneYet(before);
    while n < |turns|
      invariant 0 <= n <= |turns| && Midway(before, queue.work, done, node, turns, n)
    {
      ghost var board := queue.work;
      MidwayMeans(before, board, done, node, turns, n);
      var next := if n + 1 < |turns| then turns[n + 1].leaseAt else turns[n].leaseAt;
      var id := WorkOnce(queue, node, turns[n], next);
      TurnProgresses(before, board, queue.work, done, id);
      done := done + [id];
      n := n + 1;
    }
    Drained(before, queue.work, done);
  }
}
