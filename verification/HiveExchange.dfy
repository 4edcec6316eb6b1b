/** The hive: nodes publish deltas to one event table and each receives every foreign delta once. */
module HiveExchange {
  import opened Common

  type NodeId = string
  type EventId = nat

  /**
   * The parts of a JSON payload that decide its fate. In a readable one `requireProvenance` is the truth value of
   * that key, absent when the policy is silent; the other two have no `get` where `receive` calls it.
   */
  datatype Payload =
    | NotAnObject(body: string)
    | PolicyNotAnObject(body: string)
    | Payload(requireProvenance: Option<bool>, body: string)

  datatype Event = Event(origin: NodeId, eventType: string, payload: Payload, created: int)

  datatype Status = Merged | Rejected

  datatype Wake = Wake(event: EventId, origin: NodeId, payload: Payload)

  /** The two tables every node shares. */
  datatype Tables = Tables(events: map<EventId, Event>, receipts: map<(NodeId, EventId), Status>)

  /** A transaction that an exception left open: the tables as its connection sees them. */
  datatype Draft = Draft(node: NodeId, tables: Tables)

  /** What is committed, and the one open write transaction there can be. */
  datatype Database = Database(tables: Tables, draft: Option<Draft>)

  /** `OperationalError` is the answer to a write while another connection holds the transaction. */
  datatype HiveError = AttributeError | OperationalError

  const STATE_DELTA := "state_delta"

  predicate Readable(e: Event) { e.eventType != STATE_DELTA || e.payload.Payload? }

  predicate Compatible(e: Event) {
    && e.eventType == STATE_DELTA && e.payload.Payload?
    && (e.payload.requireProvenance.None? || e.payload.requireProvenance.value)
  }

  function StatusOf(e: Event): Status { if Compatible(e) then Merged else Rejected }

  /** The rows the SELECT returns: foreign events without a receipt of this node. */
  function Pending(t: Tables, node: NodeId): set<EventId> {
    set id | id in t.events && t.events[id].origin != node && (node, id) !in t.receipts
  }

  /** The rows among them on which the loop raises. */
  function Unreadable(t: Tables, node: NodeId): set<EventId> {
    set id | id in Pending(t, node) && !Readable(t.events[id])
  }

  function Published(t: Tables, node: NodeId, id: EventId, payload: Payload, now: int): Tables {
    t.(events := t.events[id := Event(node, STATE_DELTA, payload, now)])
  }

  function WakeOf(t: Tables, id: EventId): Wake
    requires id in t.events
  {
    Wake(id, t.events[id].origin, t.events[id].payload)
  }

  ghost predicate HasWake(wakes: seq<Wake>, id: EventId) {
    exists i :: 0 <= i < |wakes| && wakes[i].event == id
  }

  /** One wake for each compatible event among `taken`, each once, oldest first. */
  ghost predicate WakesOver(t: Tables, taken: set<EventId>, wakes: seq<Wake>) {
    && taken <= t.events.Keys
    && (forall i :: 0 <= i < |wakes| ==>
          wakes[i].event in taken && Compatible(t.events[wakes[i].event]) && wakes[i] == WakeOf(t, wakes[i].event))
    && (forall id :: id in taken && Compatible(t.events[id]) ==> HasWake(wakes, id))
    && (forall i, j :: 0 <= i < j < |wakes| ==>
          wakes[i].event != wakes[j].event && t.events[wakes[i].event].created <= t.events[wakes[j].event].created)
  }

  ghost predicate Oldest(events: map<EventId, Event>, rows: set<EventId>, id: EventId) {
    rows <= events.Keys && id in rows && forall other :: other in rows ==> events[id].created <= events[other].created
  }

  lemma AddWake(t: Tables, taken: set<EventId>, wakes: seq<Wake>, id: EventId)
    requires WakesOver(t, taken, wakes) && id in t.events && id !in taken
    requires forall a :: a in taken ==> t.events[a].created <= t.events[id].created
    ensures WakesOver(t, taken + {id}, if Compatible(t.events[id]) then wakes + [WakeOf(t, id)] else wakes)
  {
    var more := if Compatible(t.events[id]) then wakes + [WakeOf(t, id)] else wakes;
    assert forall i :: 0 <= i < |wakes| ==> more[i] == wakes[i];
    forall other | other in taken + {id} && Compatible(t.events[other])
      ensures HasWake(more, other)
    {
      if other == id {
        assert more[|wakes|].event == id;
      } else {
        assert HasWake(wakes, other);
        var i :| 0 <= i < |wakes| && wakes[i].event == other;
        assert more[i].event == other;
      }
    }
  }

  function Receipts(t: Tables, node: NodeId, taken: set<EventId>): map<(NodeId, EventId), Status> {
    t.receipts + map id | id in taken && id in t.events :: (node, id) := StatusOf(t.events[id])
  }

  function Receipted(t: Tables, node: NodeId, taken: set<EventId>): Tables {
    t.(receipts := Receipts(t, node, taken))
  }

  predicate Locked(db: Database, node: NodeId) { db.draft.Some? && db.draft.value.node != node }

  /** The tables as the connection of `node` sees them. */
  function Seen(db: Database, node: NodeId): Tables {
    if db.draft.Some? && db.draft.value.node == node then db.draft.value.tables else db.tables
  }

  /** The loop raised on `bad`: it had taken some of the rows that are no newer, all that are older, and none unreadable. */
  ghost predicate StopsAt(t: Tables, node: NodeId, taken: set<EventId>, bad: EventId) {
    && bad in Unreadable(t, node) && taken <= Pending(t, node) && taken !! Unreadable(t, node)
    && (forall a :: a in taken ==> t.events[a].created <= t.events[bad].created)
    && (forall b :: b in Pending(t, node) && b !in taken ==> t.events[bad].created <= t.events[b].created)
  }

  /** The rows one `receive` can get through; rows of one second come in any order. */
  ghost predicate GetsThrough(t: Tables, node: NodeId, taken: set<EventId>) {
    if Unreadable(t, node) == {} then taken == Pending(t, node) else exists bad :: StopsAt(t, node, taken, bad)
  }

  /** The calls of `receive` that do not raise. */
  predicate Returns(db: Database, node: NodeId) {
    Pending(Seen(db, node), node) == {} || (!Locked(db, node) && Unreadable(Seen(db, node), node) == {})
  }

  /** The first receipt opens the transaction, the end of the loop commits it, and an exception leaves it open. */
  function AfterReceive(db: Database, node: NodeId, taken: set<EventId>): Database {
    var t := Seen(db, node);
    if Locked(db, node) then db
    else if Unreadable(t, node) == {} then Database(Receipted(t, node, taken), None)
    else if taken == {} then db
    else db.(draft := Some(Draft(node, Receipted(t, node, taken))))
  }

  function AfterExit(db: Database, node: NodeId): Database {
    if Locked(db, node) then db else db.(draft := None)
  }

  /**
   * A `receive` returns exactly when nothing is pending, or nothing unreadable and the file is not locked. Then there
   * is one receipt for every row and one wake for every compatible one; otherwise nothing is committed.
   */
  ghost predicate Received(
    before: Database, node: NodeId, r: Result<seq<Wake>, HiveError>, taken: set<EventId>, after: Database)
  {
    var seen := Seen(before, node);
    && (r.Ok? <==> Returns(before, node))
    && (r.Ok? ==> WakesOver(seen, Pending(seen, node), r.value))
    && (r == Err(AttributeError) ==> Unreadable(seen, node) != {})
    && (r == Err(OperationalError) ==> Locked(before, node))
    && GetsThrough(seen, node, taken) && after == AfterReceive(before, node, taken)
  }

  /** The database file, with the connection of each node named by the node. */
  class HiveDatabase {
    var tables: Tables
    var draft: Option<Draft>

    function View(): Database
      reads this
    {
      Database(tables, draft)
    }

    constructor ()
      ensures View() == Database(Tables(map[], map[]), None)
    {
      tables, draft := Tables(map[], map[]), None;
    }

    /** `publish_delta`; `newId` is the uuid drawn for the event. Its commit takes an open transaction with it. */
    method PublishDelta(node: NodeId, newId: EventId, payload: Payload, now: int) returns (r: Result<EventId, HiveError>)
      modifies this
      ensures Locked(old(View()), node) ==> r == Err(OperationalError) && View() == old(View())
      ensures !Locked(old(View()), node) ==>
                r == Ok(newId) && View() == Database(Published(Seen(old(View()), node), node, newId, payload, now), None)
    {
      if draft.Some? && draft.value.node != node {
        return Err(OperationalError);
      }
      var seen := if draft.Some? then draft.value.tables else tables;
      tables := seen.(events := seen.events[newId := Event(node, STATE_DELTA, payload, now)]);
      draft := None;
      r := Ok(newId);
    }

    /** `receive`; `taken` are the rows it got receipts for. */
    method Receive(node: NodeId) returns (r: Result<seq<Wake>, HiveError>, ghost taken: set<EventId>)
      modifies this
      ensures Received(old(View()), node, r, taken, View())
    {
      var locked := draft.Some? && draft.value.node != node;
      var seen, writing := if draft.Some? && !locked then draft.value.tables else tables, false;
      ghost var before := View();
      r, seen, writing, taken := ReceiveRows(seen, node, locked);
      if r.Err? {
        if writing {
          draft := Some(Draft(node, seen));
        }
        taken := RowsStopped(before, node, r.error, seen, writing, taken);
        return;
      }
      if !locked {
        tables, draft := seen, None;
      }
    }

    /** The process ends and its connection with it: an open transaction is rolled back. */
    method Exit(node: NodeId)
      modifies this
      ensures View() == AfterExit(old(View()), node)
    {
      if draft.Some? && draft.value.node == node {
        draft := None;
      }
    }
  }

  // ---- The rows of one receive ----------------------------------------------------------------

  predicate Listed(t: Tables, rows: seq<EventId>) { forall i :: 0 <= i < |rows| ==> rows[i] in t.events }

  ghost predicate ByAge(t: Tables, rows: seq<EventId>) {
    && Listed(t, rows) && Distinct(rows)
    && forall i, j :: 0 <= i < j < |rows| ==> t.events[rows[i]].created <= t.events[rows[j]].created
  }

  /** ORDER BY created: all pending rows, oldest first. */
  ghost predicate Selected(t: Tables, node: NodeId, rows: seq<EventId>) {
    SetOf(rows) == Pending(t, node) && ByAge(t, rows)
  }

  ghost predicate Selecting(t: Tables, node: NodeId, rows: seq<EventId>, rest: set<EventId>) {
    && ByAge(t, rows) && SetOf(rows) !! rest && SetOf(rows) + rest == Pending(t, node)
    && forall i, b :: 0 <= i < |rows| && b in rest ==> t.events[rows[i]].created <= t.events[b].created
  }

  lemma SelectNext(t: Tables, node: NodeId, rows: seq<EventId>, rest: set<EventId>, id: EventId)
    requires Selecting(t, node, rows, rest) && Oldest(t.events, rest, id)
    ensures Selecting(t, node, rows + [id], rest - {id})
  {
    assert SetOf(rows + [id]) == SetOf(rows) + {id};
    assert id !in SetOf(rows);
  }

  method SelectRows(t: Tables, node: NodeId) returns (rows: seq<EventId>)
    ensures Selected(t, node, rows)
  {
    rows := [];
    var rest := Pending(t, node);
    while rest != {}
      invariant Selecting(t, node, rows, rest)
      decreases |rest|
    {
      assert rest <= Pending(t, node);
      var id := NextRow(t.events, rest);
      SelectNext(t, node, rows, rest, id);
      rows, rest := rows + [id], rest - {id};
    }
  }

  function WakesAlong(t: Tables, rows: seq<EventId>): seq<Wake>
    requires Listed(t, rows)
  {
    if rows == [] then []
    else
      var id := rows[|rows| - 1];
      WakesAlong(t, rows[..|rows| - 1]) + if Compatible(t.events[id]) then [WakeOf(t, id)] else []
  }

  lemma {:induction false} WakesAlongOver(t: Tables, rows: seq<EventId>)
    requires ByAge(t, rows)
    ensures WakesOver(t, SetOf(rows), WakesAlong(t, rows))
  {
    if rows != [] {
      var before, id := rows[..|rows| - 1], rows[|rows| - 1];
      WakesAlongOver(t, before);
      AddWake(t, SetOf(before), WakesAlong(t, before), id);
      assert SetOf(rows) == SetOf(before) + {id};
      assert !Compatible(t.events[id]) ==> WakesAlong(t, rows) == WakesAlong(t, before);
    }
  }

  function WithReceipt(t: Tables, node: NodeId, id: EventId, status: Status): Tables {
    t.(receipts := t.receipts[(node, id) := status])
  }

  function ReceiptedAlong(t: Tables, node: NodeId, rows: seq<EventId>): Tables
    requires Listed(t, rows)
  {
    if rows == [] then t
    else
      var id := rows[|rows| - 1];
      WithReceipt(ReceiptedAlong(t, node, rows[..|rows| - 1]), node, id, StatusOf(t.events[id]))
  }

  lemma {:induction false} ReceiptedAlongIs(t: Tables, node: NodeId, rows: seq<EventId>)
    requires Listed(t, rows)
    ensures ReceiptedAlong(t, node, rows) == Receipted(t, node, SetOf(rows))
  {
    if rows != [] {
      var before, id := rows[..|rows| - 1], rows[|rows| - 1];
      ReceiptedAlongIs(t, node, before);
      assert SetOf(rows) == SetOf(before) + {id};
      ReceiptsGrow(t, node, SetOf(before), id);
    }
  }

  /** The loop of `receive` on the tables as its connection sees them: it raises at the first row it cannot do. */
  method ReceiveRows(t: Tables, node: NodeId, locked: bool)
    returns (r: Result<seq<Wake>, HiveError>, seen: Tables, writing: bool, ghost taken: set<EventId>)
    ensures RowsDone(t, node, locked, r, seen, writing, taken)
  {
    var rows := SelectRows(t, node);
    var wakes: seq<Wake> := [];
    seen, writing := t, false;
    var n := 0;
    while n < |rows|
      invariant 0 <= n <= |rows| && (locked ==> n == 0) && (writing <==> n > 0)
      invariant seen == ReceiptedAlong(t, node, rows[..n]) && wakes == WakesAlong(t, rows[..n])
      invariant AllReadable(t, rows[..n])
    {
      var id := rows[n];
      var event := t.events[id];
      if !Readable(event) {
        taken := RaisesAt(t, node, rows, n, locked);
        return Err(AttributeError), seen, writing, taken;
      }
      if locked {
        taken := RefusedAt(t, node, rows);
        return Err(OperationalError), seen, writing, taken;
      }
      assert rows[..n + 1][..n] == rows[..n];
      var status := if Compatible(event) then Merged else Rejected;
      seen, writing := WithReceipt(seen, node, id, status), true;
      if Compatible(event) {
        wakes := wakes + [Wake(id, event.origin, event.payload)];
      }
      n := n + 1;
    }
    assert rows[..n] == rows;
    taken := AllTaken(t, node, rows, locked);
    r := Ok(wakes);
  }

  predicate AllReadable(t: Tables, rows: seq<EventId>)
    requires Listed(t, rows)
  {
    forall i :: 0 <= i < |rows| ==> Readable(t.events[rows[i]])
  }

  ghost predicate RowsDone(
    t: Tables, node: NodeId, locked: bool, r: Result<seq<Wake>, HiveError>, seen: Tables, writing: bool, taken: set<EventId>)
  {
    && seen == Receipted(t, node, taken) && (writing <==> taken != {}) && (locked ==> !writing)
    && match r
    case Ok(wakes) => taken == Pending(t, node) && Unreadable(t, node) == {} && WakesOver(t, taken, wakes)
    case Err(AttributeError) => Unreadable(t, node) != {} && GetsThrough(t, node, taken)
    case Err(OperationalError) => locked && Pending(t, node) != {}
  }

  lemma RowPending(t: Tables, node: NodeId, rows: seq<EventId>, n: nat)
    requires Selected(t, node, rows) && n < |rows|
    ensures rows[n] in Pending(t, node)
  {
    assert rows[n] in SetOf(rows);
  }

  lemma RefusedAt(t: Tables, node: NodeId, rows: seq<EventId>) returns (taken: set<EventId>)
    requires Selected(t, node, rows) && rows != []
    ensures RowsDone(t, node, true, Err(OperationalError), ReceiptedAlong(t, node, []), false, taken)
  {
    RowPending(t, node, rows, 0);
    taken := {};
    ReceiptedAlongIs(t, node, []);
    assert SetOf<EventId>([]) == {};
  }

  lemma ReceiptsGrow(t: Tables, node: NodeId, taken: set<EventId>, id: EventId)
    requires id in t.events
    ensures Receipts(t, node, taken)[(node, id) := StatusOf(t.events[id])] == Receipts(t, node, taken + {id})
  {}

  lemma RaisesAt(t: Tables, node: NodeId, rows: seq<EventId>, n: nat, locked: bool) returns (taken: set<EventId>)
    requires Selected(t, node, rows) && n < |rows| && AllReadable(t, rows[..n]) && !Readable(t.events[rows[n]])
    requires locked ==> n == 0
    ensures RowsDone(t, node, locked, Err(AttributeError), ReceiptedAlong(t, node, rows[..n]), n > 0, taken)
  {
    taken := SetOf(rows[..n]);
    ReceiptedAlongIs(t, node, rows[..n]);
    RowPending(t, node, rows, n);
    assert n > 0 ==> rows[..n][0] in taken;
    TakenRow(t, node, rows, n);
    RowsLeft(t, node, rows, n);
    assert StopsAt(t, node, taken, rows[n]);
  }

  lemma TakenRow(t: Tables, node: NodeId, rows: seq<EventId>, n: nat)
    requires Selected(t, node, rows) && n < |rows| && AllReadable(t, rows[..n])
    ensures forall a :: a in SetOf(rows[..n]) ==>
              a in Pending(t, node) && Readable(t.events[a]) && t.events[a].created <= t.events[rows[n]].created
  {
    forall a | a in SetOf(rows[..n])
      ensures a in Pending(t, node) && Readable(t.events[a]) && t.events[a].created <= t.events[rows[n]].created
    {
      var i :| 0 <= i < n && rows[..n][i] == a;
      RowPending(t, node, rows, i);
    }
  }

  lemma RowsLeft(t: Tables, node: NodeId, rows: seq<EventId>, n: nat)
    requires Selected(t, node, rows) && n < |rows|
    ensures forall b :: b in Pending(t, node) && b !in SetOf(rows[..n]) ==> t.events[rows[n]].created <= t.events[b].created
  {
    assert forall k :: 0 <= k < n ==> rows[..n][k] == rows[k];
    forall b | b in Pending(t, node) && b !in SetOf(rows[..n])
      ensures t.events[rows[n]].created <= t.events[b].created
    {
      assert b in SetOf(rows);
      var i :| 0 <= i < |rows| && rows[i] == b;
    }
  }

  lemma AllTaken(t: Tables, node: NodeId, rows: seq<EventId>, locked: bool) returns (taken: set<EventId>)
    requires Selected(t, node, rows) && AllReadable(t, rows) && (locked ==> rows == [])
    ensures RowsDone(t, node, locked, Ok(WakesAlong(t, rows)), ReceiptedAlong(t, node, rows), rows != [], taken)
  {
    taken := SetOf(rows);
    ReceiptedAlongIs(t, node, rows);
    assert rows != [] ==> rows[0] in taken;
    WakesAlongOver(t, rows);
    forall id | id in Pending(t, node)
      ensures Readable(t.events[id])
    {
      assert id in SetOf(rows);
      var i :| 0 <= i < |rows| && rows[i] == id;
    }
  }

  /** How far a `receive` that raised got; behind a lock that is as good as any way. */
  lemma RowsStopped(
    before: Database, node: NodeId, error: HiveError, seen: Tables, writing: bool, taken: set<EventId>)
    returns (through: set<EventId>)
    requires RowsDone(Seen(before, node), node, Locked(before, node), Err(error), seen, writing, taken)
    ensures Received(before, node, Err(error), through, if writing then before.(draft := Some(Draft(node, seen))) else before)
  {
    var t := Seen(before, node);
    assert Unreadable(t, node) <= Pending(t, node);
    through := taken;
    if error == OperationalError { through := SomeStop(t, node); }
  }

  lemma SomeStop(t: Tables, node: NodeId) returns (taken: set<EventId>)
    ensures GetsThrough(t, node, taken)
  {
    var bads := Unreadable(t, node);
    if bads == {} {
      taken := Pending(t, node);
    } else {
      OldestExists(t.events, bads);
      var bad :| Oldest(t.events, bads, bad);
      taken := set id | id in Pending(t, node) && id !in bads && t.events[id].created <= t.events[bad].created;
      assert StopsAt(t, node, taken, bad);
    }
  }

  /** ORDER BY created: some oldest row of those left. */
  method NextRow(events: map<EventId, Event>, rows: set<EventId>) returns (id: EventId)
    requires rows != {} && rows <= events.Keys
    ensures Oldest(events, rows, id)
  {
    OldestExists(events, rows);
    id :| id in rows && forall other :: other in rows ==> events[id].created <= events[other].created;
  }

  /** A non-empty set of rows has an oldest one. */
  lemma {:induction false} OldestExists(events: map<EventId, Event>, rows: set<EventId>)
    requires rows != {} && rows <= events.Keys
    ensures exists id :: Oldest(events, rows, id)
    decreases |rows|
  {
    var id :| id in rows;
    var rest := rows - {id};
    if rest == {} {
      assert rows == {id};
      assert Oldest(events, rows, id);
    } else {
      OldestExists(events, rest);
      var best :| Oldest(events, rest, best);
      var oldest := if events[id].created <= events[best].created then id else best;
      assert Oldest(events, rows, oldest);
    }
  }

  // ---- Every interleaving ---------------------------------------------------------------------

  /** In a `receive` that raises, `taken` is how far it got and `survives` whether its process goes on. */
  datatype Call =
    | PublishCall(node: NodeId, newId: EventId, payload: Payload, now: int)
    | ReceiveCall(node: NodeId, taken: set<EventId>, survives: bool)
    | ExitCall(node: NodeId)

  /** The database, how often each node was woken for each event, and the merged receipts that came without a wake. */
  datatype World = World(db: Database, woken: multiset<(NodeId, EventId)>, silent: set<(NodeId, EventId)>)

  const EMPTY := World(Database(Tables(map[], map[]), None), multiset{}, {})

  /** The node-event pairs a `receive` wakes. */
  function Woken(t: Tables, node: NodeId): set<(NodeId, EventId)> {
    set id | id in Pending(t, node) && Compatible(t.events[id]) :: (node, id)
  }

  /** Merged receipts that `seen` adds to what is committed; nobody was handed the wakes that belong to them. */
  function Added(db: Database, seen: Tables): set<(NodeId, EventId)> {
    set key | key in seen.receipts && key !in db.tables.receipts && seen.receipts[key] == Merged
  }

  function Step(w: World, c: Call): World {
    var seen := Seen(w.db, c.node);
    match c
    case PublishCall(node, newId, payload, now) =>
      if Locked(w.db, node) then w
      else World(Database(Published(seen, node, newId, payload, now), None), w.woken, w.silent + Added(w.db, seen))
    case ReceiveCall(node, taken, survives) =>
      if Locked(w.db, node) then w
      else if Unreadable(seen, node) != {} then
        w.(db := if survives then AfterReceive(w.db, node, taken) else AfterExit(w.db, node))
      else World(AfterReceive(w.db, node, taken), w.woken + multiset(Woken(seen, node)), w.silent + Added(w.db, seen))
    case ExitCall(node) => w.(db := AfterExit(w.db, node))
  }

  function Run(w: World, calls: seq<Call>): World {
    if calls == [] then w else Step(Run(w, calls[..|calls| - 1]), calls[|calls| - 1])
  }

  /** Event ids are drawn fresh, and each `receive` gets as far as the loop takes it. */
  ghost predicate Fair(w: World, c: Call) {
    match c
    case PublishCall(_, newId, _, _) => newId !in w.db.tables.events
    case ReceiveCall(node, taken, _) => GetsThrough(Seen(w.db, node), node, taken)
    case ExitCall(_) => true
  }

  ghost predicate FairRun(w: World, calls: seq<Call>) {
    calls == [] || (FairRun(w, calls[..|calls| - 1]) && Fair(Run(w, calls[..|calls| - 1]), calls[|calls| - 1]))
  }

  // ---- What every run keeps -------------------------------------------------------------------

  ghost predicate GoodReceipts(t: Tables) {
    forall key :: key in t.receipts ==>
      && key.1 in t.events && t.events[key.1].origin != key.0 && Readable(t.events[key.1])
      && t.receipts[key] == StatusOf(t.events[key.1])
  }

  /** An open transaction adds receipts of its own node, all no newer than what that node is stuck at. */
  ghost predicate GoodDraft(t: Tables, d: Draft) {
    && d.tables.events == t.events && GoodReceipts(d.tables) && Unreadable(d.tables, d.node) != {}
    && (forall key :: key in t.receipts ==> key in d.tables.receipts)
    && (forall key :: key in d.tables.receipts && key !in t.receipts ==> key.0 == d.node)
    && (forall key, bad :: key in d.tables.receipts && key !in t.receipts && bad in Unreadable(d.tables, d.node) ==>
          t.events[key.1].created <= t.events[bad].created)
  }

  /** A node was woken for an event exactly once if it holds a merged receipt that did not come silently. */
  ghost predicate Inv(w: World) {
    && GoodReceipts(w.db.tables)
    && (w.db.draft.Some? ==> GoodDraft(w.db.tables, w.db.draft.value))
    && (forall key :: key in w.silent ==> key in w.db.tables.receipts && w.db.tables.receipts[key] == Merged)
    && (forall key ::
          w.woken[key] == if key in w.db.tables.receipts && w.db.tables.receipts[key] == Merged && key !in w.silent then 1 else 0)
  }

  lemma SeenIsGood(w: World, node: NodeId)
    requires Inv(w)
    ensures GoodReceipts(Seen(w.db, node)) && Seen(w.db, node).events == w.db.tables.events
    ensures forall key :: key in w.db.tables.receipts ==>
              key in Seen(w.db, node).receipts && Seen(w.db, node).receipts[key] == w.db.tables.receipts[key]
    ensures Unreadable(Seen(w.db, node), node) == Unreadable(w.db.tables, node)
  {}

  lemma PublishKeeps(w: World, c: Call)
    requires Inv(w) && c.PublishCall? && Fair(w, c)
    ensures Inv(Step(w, c))
  {
    SeenIsGood(w, c.node);
  }

  lemma ReceiptedIsGood(t: Tables, node: NodeId, taken: set<EventId>)
    requires GoodReceipts(t) && taken <= Pending(t, node) && taken !! Unreadable(t, node)
    ensures GoodReceipts(Receipted(t, node, taken))
  {}

  lemma ReturningKeeps(w: World, c: Call)
    requires Inv(w) && c.ReceiveCall? && Fair(w, c) && !Locked(w.db, c.node)
    requires Unreadable(Seen(w.db, c.node), c.node) == {}
    ensures Inv(Step(w, c)) && w.db.draft.None? && Step(w, c).silent == w.silent
  {
    var t := w.db.tables;
    assert Seen(w.db, c.node) == t && c.taken == Pending(t, c.node);
    ReceiptedIsGood(t, c.node, c.taken);
    var fresh' := Woken(t, c.node);
    assert Added(w.db, t) == {};
    forall key
      ensures multiset(fresh')[key] == if key in fresh' then 1 else 0
    {}
  }

  lemma RaisingKeeps(w: World, node: NodeId, taken: set<EventId>)
    requires Inv(w) && !Locked(w.db, node) && Unreadable(Seen(w.db, node), node) != {}
    requires GetsThrough(Seen(w.db, node), node, taken)
    ensures Inv(w.(db := AfterReceive(w.db, node, taken)))
  {
    var seen := Seen(w.db, node);
    SeenIsGood(w, node);
    if taken != {} {
      var bad :| StopsAt(seen, node, taken, bad);
      var d := AfterReceive(w.db, node, taken).draft.value;
      StillUnreadable(seen, node, taken);
      ReceiptedIsGood(seen, node, taken);
      assert bad in Unreadable(d.tables, node);
      forall key, other | key in d.tables.receipts && key !in w.db.tables.receipts && other in Unreadable(d.tables, node)
        ensures w.db.tables.events[key.1].created <= w.db.tables.events[other].created
      {
        if key !in seen.receipts { assert key.1 in taken; }
      }
    }
  }

  /** Receipts of readable rows leave the unreadable ones as they are. */
  lemma StillUnreadable(t: Tables, node: NodeId, taken: set<EventId>)
    requires taken <= Pending(t, node) && taken !! Unreadable(t, node)
    ensures Unreadable(Receipted(t, node, taken), node) == Unreadable(t, node)
  {}

  lemma StepKeeps(w: World, c: Call)
    requires Inv(w) && Fair(w, c)
    ensures Inv(Step(w, c))
  {
    match c
    case PublishCall(_, _, _, _) => PublishKeeps(w, c);
    case ReceiveCall(node, taken, survives) =>
      if !Locked(w.db, node) {
        if Unreadable(Seen(w.db, node), node) == {} { ReturningKeeps(w, c); } else { RaisingKeeps(w, node, taken); }
      }
    case ExitCall(_) =>
  }

  lemma {:induction false} RunKeeps(w: World, calls: seq<Call>)
    requires Inv(w) && FairRun(w, calls)
    ensures Inv(Run(w, calls))
  {
    if calls != [] {
      RunKeeps(w, calls[..|calls| - 1]);
      StepKeeps(Run(w, calls[..|calls| - 1]), calls[|calls| - 1]);
    }
  }

  /**
   * Over every interleaving a node is woken at most once for any event, never for its own, and exactly once for each
   * merged receipt that was not committed silently.
   */
  lemma WokenAtMostOnce(calls: seq<Call>, node: NodeId, id: EventId)
    requires FairRun(EMPTY, calls)
    ensures
      var w := Run(EMPTY, calls);
      var t := w.db.tables;
      && w.woken[(node, id)] <= 1
      && (w.woken[(node, id)] == 1 <==>
            (node, id) in t.receipts && t.receipts[(node, id)] == Merged && (node, id) !in w.silent)
      && (w.woken[(node, id)] == 1 ==> id in t.events && t.events[id].origin != node && Compatible(t.events[id]))
  {
    RunKeeps(EMPTY, calls);
  }

  /** Receipts and events are never lost or rewritten. */
  lemma {:induction false} TablesOnlyGrow(w: World, calls: seq<Call>)
    requires Inv(w) && FairRun(w, calls)
    ensures
      var before, after := w.db.tables, Run(w, calls).db.tables;
      && (forall id :: id in before.events ==> id in after.events && after.events[id] == before.events[id])
      && (forall key :: key in before.receipts ==> key in after.receipts && after.receipts[key] == before.receipts[key])
  {
    if calls != [] {
      TablesOnlyGrow(w, calls[..|calls| - 1]);
      RunKeeps(w, calls[..|calls| - 1]);
      StepGrows(Run(w, calls[..|calls| - 1]), calls[|calls| - 1]);
    }
  }

  lemma StepGrows(w: World, c: Call)
    requires Inv(w) && Fair(w, c)
    ensures
      var before, after := w.db.tables, Step(w, c).db.tables;
      && (forall id :: id in before.events ==> id in after.events && after.events[id] == before.events[id])
      && (forall key :: key in before.receipts ==> key in after.receipts && after.receipts[key] == before.receipts[key])
  {
    SeenIsGood(w, c.node);
    if c.ReceiveCall? && Unreadable(Seen(w.db, c.node), c.node) == {} {
      assert c.taken == Pending(Seen(w.db, c.node), c.node);
    }
  }

  // ---- An unreadable event --------------------------------------------------------------------

  /** What `StuckForever` keeps from `before` to `after`. */
  ghost predicate StillStuck(before: World, after: World, node: NodeId, bad: EventId) {
    var old', new' := before.db.tables, after.db.tables;
    && bad in Unreadable(old', node) && bad in Unreadable(new', node) && new'.events[bad] == old'.events[bad]
    && (forall id :: after.woken[(node, id)] == before.woken[(node, id)])
    && (forall id :: (node, id) in new'.receipts && (node, id) !in old'.receipts ==>
          id in new'.events && new'.events[id].created <= old'.events[bad].created)
  }

  lemma StepStaysStuck(w: World, c: Call, node: NodeId, bad: EventId)
    requires Inv(w) && Fair(w, c) && bad in Unreadable(w.db.tables, node)
    ensures StillStuck(w, Step(w, c), node, bad)
  {
    StepGrows(w, c);
    SeenIsGood(w, c.node);
    SeenIsGood(w, node);
  }

  lemma StuckThenStuck(a: World, b: World, c: World, node: NodeId, bad: EventId)
    requires StillStuck(a, b, node, bad) && StillStuck(b, c, node, bad)
    requires forall id :: id in b.db.tables.events ==> id in c.db.tables.events && c.db.tables.events[id] == b.db.tables.events[id]
    ensures StillStuck(a, c, node, bad)
  {}

  /**
   * Once an unreadable foreign event is pending for a node it stays so, whatever anyone does: the node is never woken
   * again for anything, and gets no receipt any more for an event newer than that one.
   */
  lemma {:induction false} StuckForever(w: World, calls: seq<Call>, node: NodeId, bad: EventId)
    requires Inv(w) && FairRun(w, calls) && bad in Unreadable(w.db.tables, node)
    ensures StillStuck(w, Run(w, calls), node, bad)
  {
    if calls != [] {
      var earlier, c := calls[..|calls| - 1], calls[|calls| - 1];
      StuckForever(w, earlier, node, bad);
      RunKeeps(w, earlier);
      StepStaysStuck(Run(w, earlier), c, node, bad);
      StepGrows(Run(w, earlier), c);
      StuckThenStuck(w, Run(w, earlier), Run(w, calls), node, bad);
    }
  }

  predicate HeldOpenBy(db: Database, node: NodeId) { db.draft.Some? && db.draft.value.node == node }

  /** A call by which `node` would end its transaction. */
  predicate Releases(c: Call, node: NodeId) { c.node == node && (c.ReceiveCall? ==> !c.survives) }

  /**
   * A `receive` that raised and whose process goes on freezes the hive: until that node publishes or exits, no call of
   * anyone, its own further receives included, commits an event or a receipt or hands out a wake.
   */
  lemma {:induction false} OpenTransactionFreezes(w: World, calls: seq<Call>, node: NodeId)
    requires Inv(w) && FairRun(w, calls) && HeldOpenBy(w.db, node)
    requires forall i :: 0 <= i < |calls| ==> !Releases(calls[i], node)
    ensures
      var after := Run(w, calls);
      after.db.tables == w.db.tables && after.woken == w.woken && HeldOpenBy(after.db, node)
  {
    if calls != [] {
      var earlier, c := calls[..|calls| - 1], calls[|calls| - 1];
      OpenTransactionFreezes(w, earlier, node);
      RunKeeps(w, earlier);
      assert !Releases(calls[|calls| - 1], node);
      FrozenStep(Run(w, earlier), c, node);
    }
  }

  lemma FrozenStep(w: World, c: Call, node: NodeId)
    requires Inv(w) && HeldOpenBy(w.db, node) && !Releases(c, node)
    ensures
      var after := Step(w, c);
      after.db.tables == w.db.tables && after.woken == w.woken && HeldOpenBy(after.db, node)
  {}

  // ---- Convergence ----------------------------------------------------------------------------

  /** What a node has: what it merged, and its own compatible deltas. */
  function Holdings(t: Tables, node: NodeId): set<EventId> {
    set id | id in t.events && (
      ((node, id) in t.receipts && t.receipts[(node, id)] == Merged)
      || (t.events[id].origin == node && Compatible(t.events[id])))
  }

  function CompatibleEvents(t: Tables): set<EventId> {
    set id | id in t.events && Compatible(t.events[id])
  }

  ghost predicate CaughtUp(t: Tables, node: NodeId) { Pending(t, node) == {} }

  /** No node ever holds anything incompatible, and one that is caught up holds everything compatible. */
  lemma HoldingsBounded(t: Tables, node: NodeId)
    requires GoodReceipts(t)
    ensures Holdings(t, node) <= CompatibleEvents(t)
    ensures CaughtUp(t, node) ==> Holdings(t, node) == CompatibleEvents(t)
  {
    if CaughtUp(t, node) {
      forall id | id in CompatibleEvents(t)
        ensures id in Holdings(t, node)
      {
        assert id !in Pending(t, node);
      }
    }
  }

  predicate OnlyReceives(calls: seq<Call>) { forall i :: 0 <= i < |calls| ==> calls[i].ReceiveCall? }

  /** Each receive in a process of its own, as the module does when it is run: an exception ends the process. */
  predicate OnlyScripts(calls: seq<Call>) { OnlyReceives(calls) && forall i :: 0 <= i < |calls| ==> !calls[i].survives }

  /** Receives none of which can raise and survive. */
  ghost predicate LeavesNothingOpen(w: World, calls: seq<Call>) {
    OnlyReceives(calls) && (OnlyScripts(calls) || forall id :: id in w.db.tables.events ==> Readable(w.db.tables.events[id]))
  }

  ghost predicate TakesPart(calls: seq<Call>, node: NodeId) {
    exists i :: 0 <= i < |calls| && calls[i].node == node
  }

  lemma {:induction false} RunsCompose(w: World, first: seq<Call>, second: seq<Call>)
    ensures Run(w, first + second) == Run(Run(w, first), second)
    ensures FairRun(w, first + second) <==> FairRun(w, first) && FairRun(Run(w, first), second)
  {
    if second == [] {
      assert first + second == first;
    } else {
      RunsCompose(w, first, second[..|second| - 1]);
      assert (first + second)[..|first + second| - 1] == first + second[..|second| - 1];
    }
  }

  /** What a node's own script, or one of another node, does to the tables from its point of view. */
  ghost predicate Settles(before: Tables, after: Tables, node: NodeId, took: bool) {
    && after.events == before.events && Unreadable(after, node) == Unreadable(before, node)
    && (Unreadable(before, node) != {} || !took ==> Holdings(after, node) == Holdings(before, node))
    && ((Unreadable(before, node) == {} && took) || CaughtUp(before, node) ==> CaughtUp(after, node))
  }

  lemma ReceiptsSettle(t: Tables, taker: NodeId, node: NodeId)
    requires Unreadable(t, taker) == {}
    ensures Settles(t, Receipted(t, taker, Pending(t, taker)), node, taker == node)
  {}

  lemma ScriptStep(w: World, c: Call, node: NodeId)
    requires Inv(w) && w.db.draft.None? && c.ReceiveCall? && Fair(w, c)
    requires !c.survives || Unreadable(w.db.tables, c.node) == {}
    ensures Step(w, c).db.draft.None? && Settles(w.db.tables, Step(w, c).db.tables, node, c.node == node)
  {
    if Unreadable(w.db.tables, c.node) == {} { ReceiptsSettle(w.db.tables, c.node, node); }
  }

  lemma SettlesTwice(a: Tables, b: Tables, c: Tables, node: NodeId, first: bool, second: bool)
    requires Settles(a, b, node, first) && Settles(b, c, node, second)
    ensures Settles(a, c, node, first || second)
  {}

  lemma {:induction false} ScriptsSettle(w: World, calls: seq<Call>, node: NodeId)
    requires Inv(w) && w.db.draft.None? && LeavesNothingOpen(w, calls) && FairRun(w, calls)
    ensures Run(w, calls).db.draft.None? && Settles(w.db.tables, Run(w, calls).db.tables, node, TakesPart(calls, node))
  {
    if calls != [] {
      var earlier, c := calls[..|calls| - 1], calls[|calls| - 1];
      ScriptsSettle(w, earlier, node);
      RunKeeps(w, earlier);
      assert calls[|calls| - 1].ReceiveCall?;
      ScriptStep(Run(w, earlier), c, node);
      TakesPartOneMore(calls, node);
      SettlesTwice(w.db.tables, Run(w, earlier).db.tables, Run(w, calls).db.tables, node,
                   TakesPart(earlier, node), c.node == node);
    }
  }

  lemma TakesPartOneMore(calls: seq<Call>, node: NodeId)
    requires calls != []
    ensures TakesPart(calls, node) <==> TakesPart(calls[..|calls| - 1], node) || calls[|calls| - 1].node == node
  {
    var earlier := calls[..|calls| - 1];
    assert forall i :: 0 <= i < |earlier| ==> earlier[i] == calls[i];
    if i :| 0 <= i < |calls| && calls[i].node == node {
      if i < |earlier| { assert earlier[i].node == node; }
    }
  }

  lemma NodeConvergesIff(w: World, receives: seq<Call>, node: NodeId)
    requires Inv(w) && w.db.draft.None? && LeavesNothingOpen(w, receives) && FairRun(w, receives) && TakesPart(receives, node)
    ensures Holdings(Run(w, receives).db.tables, node) == CompatibleEvents(w.db.tables)
            <==> Unreadable(w.db.tables, node) == {} || Holdings(w.db.tables, node) == CompatibleEvents(w.db.tables)
  {
    ScriptsSettle(w, receives, node);
    RunKeeps(w, receives);
    HoldingsBounded(Run(w, receives).db.tables, node);
  }

  /**
   * Convergence, exactly: after any interleaving that leaves no transaction open, let every one of `nodes` take part in
   * further receives, each in its own process. Then all of them hold every compatible event exactly when none of them
   * has an unreadable event before it, except such as hold everything already.
   */
  lemma HiveConvergesIff(calls: seq<Call>, receives: seq<Call>, nodes: set<NodeId>)
    requires FairRun(EMPTY, calls + receives) && OnlyScripts(receives) && Run(EMPTY, calls).db.draft.None?
    requires forall node :: node in nodes ==> TakesPart(receives, node)
    ensures
      var before, after := Run(EMPTY, calls).db.tables, Run(EMPTY, calls + receives).db.tables;
      (forall node :: node in nodes ==> Holdings(after, node) == CompatibleEvents(before))
      <==> (forall node :: node in nodes ==>
              Unreadable(before, node) == {} || Holdings(before, node) == CompatibleEvents(before))
  {
    var w := Run(EMPTY, calls);
    RunsCompose(EMPTY, calls, receives);
    RunKeeps(EMPTY, calls);
    forall node | node in nodes
      ensures Holdings(Run(w, receives).db.tables, node) == CompatibleEvents(w.db.tables)
              <==> Unreadable(w.db.tables, node) == {} || Holdings(w.db.tables, node) == CompatibleEvents(w.db.tables)
    {
      NodeConvergesIff(w, receives, node);
    }
  }

  predicate AllReadablyPublished(calls: seq<Call>) {
    forall i :: 0 <= i < |calls| ==> calls[i].PublishCall? ==> calls[i].payload.Payload?
  }

  /** If every payload published is readable, no receive raises, no transaction stays open and no receipt is silent. */
  lemma {:induction false} ReadableRuns(calls: seq<Call>)
    requires FairRun(EMPTY, calls) && AllReadablyPublished(calls)
    ensures
      var w := Run(EMPTY, calls);
      && w.db.draft.None? && w.silent == {}
      && (forall id :: id in w.db.tables.events ==> Readable(w.db.tables.events[id]))
      && (forall node :: Unreadable(w.db.tables, node) == {})
  {
    if calls != [] {
      var earlier, c := calls[..|calls| - 1], calls[|calls| - 1];
      ReadableRuns(earlier);
      RunKeeps(EMPTY, earlier);
      StepGrows(Run(EMPTY, earlier), c);
      assert calls[|calls| - 1].PublishCall? ==> calls[|calls| - 1].payload.Payload?;
    }
  }

  /**
   * Convergence under readable payloads, a condition a publisher can check: after any interleaving of publishing,
   * receiving and exiting, and any further receives in which every one of `nodes` takes part, all of them hold the
   * same set, which is every compatible event.
   */
  lemma HiveConverges(calls: seq<Call>, receives: seq<Call>, nodes: set<NodeId>)
    requires FairRun(EMPTY, calls + receives) && AllReadablyPublished(calls) && OnlyReceives(receives)
    requires forall node :: node in nodes ==> TakesPart(receives, node)
    ensures forall node :: node in nodes ==>
              Holdings(Run(EMPTY, calls + receives).db.tables, node) == CompatibleEvents(Run(EMPTY, calls).db.tables)
  {
    var w := Run(EMPTY, calls);
    RunsCompose(EMPTY, calls, receives);
    ReadableRuns(calls);
    RunKeeps(EMPTY, calls);
    forall node | node in nodes
      ensures Holdings(Run(w, receives).db.tables, node) == CompatibleEvents(w.db.tables)
    {
      NodeConvergesIff(w, receives, node);
    }
  }

  /** A `receive` that returned, repeated with nothing published in between, finds nothing and wakes nobody. */
  lemma ReceiveIsIdempotent(w: World, node: NodeId, taken: set<EventId>, survives: bool)
    requires Fair(w, ReceiveCall(node, taken, survives)) && Returns(w.db, node)
    ensures
      var once := Step(w, ReceiveCall(node, taken, survives));
      Pending(Seen(once.db, node), node) == {} && Step(once, ReceiveCall(node, {}, survives)) == once
  {
    var seen := Seen(w.db, node);
    assert Unreadable(seen, node) <= Pending(seen, node);
    if !Locked(w.db, node) {
      assert Unreadable(seen, node) == {} && taken == Pending(seen, node);
      Exhausted(seen, node);
    }
    NothingToReceive(Step(w, ReceiveCall(node, taken, survives)), node, survives);
  }

  lemma NothingToReceive(w: World, node: NodeId, survives: bool)
    requires Pending(Seen(w.db, node), node) == {} && (w.db.draft.Some? ==> Locked(w.db, node))
    ensures Step(w, ReceiveCall(node, {}, survives)) == w
  {
    if w.db.draft.None? {
      NothingTaken(w.db.tables, node);
      assert Woken(w.db.tables, node) == {} && Added(w.db, w.db.tables) == {};
    }
  }

  lemma NothingTaken(t: Tables, node: NodeId)
    ensures Receipted(t, node, {}) == t
  {
    assert Receipts(t, node, {}) == t.receipts;
  }

  lemma Exhausted(t: Tables, node: NodeId)
    ensures Pending(Receipted(t, node, Pending(t, node)), node) == {}
  {}

  // ---- Two inputs -----------------------------------------------------------------------------

  lemma TwoPublished(first: Call, second: Call)
    requires first.PublishCall? && second.PublishCall? && first.newId != second.newId
    ensures FairRun(EMPTY, [first, second])
    ensures
      var one := Event(first.node, STATE_DELTA, first.payload, first.now);
      var two := Event(second.node, STATE_DELTA, second.payload, second.now);
      Run(EMPTY, [first, second])
      == World(Database(Tables(map[first.newId := one, second.newId := two], map[]), None), multiset{}, {})
  {
    var w := Step(EMPTY, first);
    assert Added(EMPTY.db, EMPTY.db.tables) == {} == Added(w.db, w.db.tables);
    TwoSteps(EMPTY, first, second);
  }

  /** A JSON null as merge policy, then an ordinary delta: the other node never holds the second, whatever follows. */
  lemma NullPolicyStopsTheHive(first: Call, second: Call, calls: seq<Call>)
    requires first == PublishCall("A", 0, PolicyNotAnObject(""), 1) && second == PublishCall("A", 1, Payload(None, ""), 2)
    requires FairRun(EMPTY, [first, second] + calls)
    ensures
      var t := Run(EMPTY, [first, second] + calls).db.tables;
      1 in CompatibleEvents(t) && 1 !in Holdings(t, "B") && 0 in Unreadable(t, "B")
  {
    var w := Run(EMPTY, [first, second]);
    RunsCompose(EMPTY, [first, second], calls);
    TwoPublished(first, second);
    RunKeeps(EMPTY, [first, second]);
    assert "A" != "B";
    assert 0 in Unreadable(w.db.tables, "B") && 1 in Pending(w.db.tables, "B");
    StuckForever(w, calls, "B", 0);
    TablesOnlyGrow(w, calls);
    RunKeeps(w, calls);
  }

  /**
   * An ordinary delta, then a null policy: the other node raises behind the first, survives, and its next publication
   * commits the merged receipt of a delta it was never woken for.
   */
  lemma SilentReceipt(first: Call, second: Call, third: Call, fourth: Call)
    requires first == PublishCall("A", 0, Payload(None, ""), 1) && second == PublishCall("A", 1, PolicyNotAnObject(""), 2)
    requires third == ReceiveCall("B", {0}, true) && fourth == PublishCall("B", 2, Payload(None, ""), 3)
    ensures FairRun(EMPTY, [first, second] + [third, fourth])
    ensures
      var w := Run(EMPTY, [first, second] + [third, fourth]);
      ("B", 0) in w.db.tables.receipts && w.db.tables.receipts[("B", 0)] == Merged && w.woken[("B", 0)] == 0
  {
    var w := Run(EMPTY, [first, second]);
    RunsCompose(EMPTY, [first, second], [third, fourth]);
    TwoPublished(first, second);
    assert "A" != "B";
    StopsBehindTheFirst(w.db.tables, "A", "B");
    TwoSteps(w, third, fourth);
    var stuck := Step(w, third);
    assert stuck == w.(db := AfterReceive(w.db, "B", {0}));
    assert stuck.db == Database(w.db.tables, Some(Draft("B", Receipted(w.db.tables, "B", {0}))));
  }

  lemma TwoSteps(w: World, c: Call, d: Call)
    ensures Run(w, [c, d]) == Step(Step(w, c), d)
    ensures FairRun(w, [c, d]) <==> Fair(w, c) && Fair(Step(w, c), d)
  {
    var both := [c, d];
    assert both[..1] == [c] && [c][..0] == [];
    assert Run(w, [c]) == Step(w, c) && (FairRun(w, [c]) <==> Fair(w, c));
  }

  lemma StopsBehindTheFirst(t: Tables, origin: NodeId, node: NodeId)
    requires t.events == map[0 := Event(origin, STATE_DELTA, Payload(None, ""), 1),
                             1 := Event(origin, STATE_DELTA, PolicyNotAnObject(""), 2)]
    requires t.receipts == map[] && origin != node
    ensures GetsThrough(t, node, {0}) && Unreadable(t, node) != {}
    ensures Receipted(t, node, {0}).receipts == map[(node, 0) := Merged]
  {
    assert Pending(t, node) == {0, 1};
    assert 1 in Unreadable(t, node) && 0 !in Unreadable(t, node);
    assert StopsAt(t, node, {0}, 1);
  }
}
