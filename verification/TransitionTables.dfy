/** Checking a published state graph and lowering it to the uint8 tables the generated C indexes. */
module TransitionTables {
  import opened Common
  import opened Sorting
  import opened StateGraph
  import opened Bits

  datatype Row<E> = Row(source: string, event: E, target: string, accepted: bool)

  /** The part of a lifecycle receipt that the lowering reads. */
  datatype Graph<E> = Graph(stateIds: seq<string>, stateCount: int, rows: seq<Row<E>>, transitionCount: int)

  datatype Cell = Cell(target: string, accepted: bool)

  type Matrix<!E(==)> = map<(string, E), Cell>

  datatype GraphError = MalformedId | InconsistentAccounting | OutsideGraph | DuplicateRow | Incomplete

  datatype Validated<!E(==)> = Validated(ids: seq<string>, matrix: Matrix<E>)

  // ---- Validation -----------------------------------------------------------------------------

  ghost predicate RowInside<E>(row: Row<E>, ids: seq<string>, events: seq<E>) {
    row.source in ids && row.target in ids && row.event in events
  }

  function KeyOf<E>(row: Row<E>): (string, E) { (row.source, row.event) }

  function CellOf<E>(row: Row<E>): Cell { Cell(row.target, row.accepted) }

  ghost predicate KeysDistinct<E>(rows: seq<Row<E>>) {
    forall i, j :: 0 <= i < j < |rows| ==> KeyOf(rows[i]) != KeyOf(rows[j])
  }

  /** What a graph must satisfy to be lowered; completeness is only a count. */
  ghost predicate WellFormed<E>(g: Graph<E>, events: seq<E>) {
    && (forall id :: id in g.stateIds ==> GoodKey(id))
    && Distinct(g.stateIds) && g.stateCount == |g.stateIds|
    && Acceptable(g.rows, g.stateIds, events)
    && |g.rows| == |g.stateIds| * |events| == g.transitionCount
  }

  ghost predicate HasKey<E>(rows: seq<Row<E>>, key: (string, E)) {
    exists i :: 0 <= i < |rows| && KeyOf(rows[i]) == key
  }

  /** The matrix holds each of the rows, and nothing else. */
  ghost predicate Records<E>(m: Matrix<E>, rows: seq<Row<E>>) {
    && (forall i :: 0 <= i < |rows| ==> KeyOf(rows[i]) in m && m[KeyOf(rows[i])] == CellOf(rows[i]))
    && (forall key :: key in m ==> HasKey(rows, key))
  }

  /** The dictionary after the rows have been stored one by one. */
  function MatrixOf<E(==)>(rows: seq<Row<E>>): Matrix<E> {
    if rows == [] then map[]
    else
      var last := rows[|rows| - 1];
      MatrixOf(rows[..|rows| - 1])[KeyOf(last) := CellOf(last)]
  }

  /** Every row passed the loop's checks when its turn came. */
  ghost predicate Loads<E>(rows: seq<Row<E>>, ids: seq<string>, events: seq<E>) {
    rows == [] || (
      var before, last := rows[..|rows| - 1], rows[|rows| - 1];
      Loads(before, ids, events) && RowInside(last, ids, events) && KeyOf(last) !in MatrixOf(before))
  }

  lemma {:induction false} MatrixOfRecords<E>(rows: seq<Row<E>>)
    ensures forall key :: key in MatrixOf(rows) ==> HasKey(rows, key)
    ensures forall i :: 0 <= i < |rows| ==> KeyOf(rows[i]) in MatrixOf(rows)
  {
    if rows != [] {
      var before := rows[..|rows| - 1];
      MatrixOfRecords(before);
      forall key | key in MatrixOf(rows)
        ensures HasKey(rows, key)
      {
        if key == KeyOf(rows[|rows| - 1]) {
        } else {
          assert HasKey(before, key);
          var i :| 0 <= i < |before| && KeyOf(before[i]) == key;
          assert KeyOf(rows[i]) == key;
        }
      }
      forall i | 0 <= i < |rows|
        ensures KeyOf(rows[i]) in MatrixOf(rows)
      {
        if i < |before| { assert before[i] == rows[i]; }
      }
    }
  }

  ghost predicate Acceptable<E>(rows: seq<Row<E>>, ids: seq<string>, events: seq<E>) {
    KeysDistinct(rows) && forall row :: row in rows ==> RowInside(row, ids, events)
  }

  lemma {:induction false} LoadedRecords<E>(rows: seq<Row<E>>, ids: seq<string>, events: seq<E>)
    requires Loads(rows, ids, events)
    ensures Records(MatrixOf(rows), rows) && |MatrixOf(rows)| == |rows|
  {
    if rows != [] {
      var before, last := rows[..|rows| - 1], rows[|rows| - 1];
      LoadedRecords(before, ids, events);
      assert rows == before + [last];
    }
  }

  /** Passing every check one row at a time is the same as being acceptable as a whole. */
  lemma {:induction false} LoadsIff<E>(rows: seq<Row<E>>, ids: seq<string>, events: seq<E>)
    ensures Loads(rows, ids, events) <==> Acceptable(rows, ids, events)
  {
    if rows != [] {
      var before, last := rows[..|rows| - 1], rows[|rows| - 1];
      LoadsIff(before, ids, events);
      assert rows == before + [last];
      MatrixOfRecords(before);
      if KeyOf(last) !in MatrixOf(before) {
        assert !HasKey(before, KeyOf(last));
      }
    }
  }

  /** A prefix that fails a check fails it for good. */
  lemma {:induction false} LoadsPrefix<E>(rows: seq<Row<E>>, n: nat, ids: seq<string>, events: seq<E>)
    requires n <= |rows| && Loads(rows, ids, events)
    ensures Loads(rows[..n], ids, events)
  {
    if n == |rows| {
      assert rows[..n] == rows;
    } else {
      LoadsPrefix(rows[..|rows| - 1], n, ids, events);
      assert rows[..|rows| - 1][..n] == rows[..n];
    }
  }

  lemma LoadsNext<E>(rows: seq<Row<E>>, n: nat, ids: seq<string>, events: seq<E>)
    requires n < |rows| && Loads(rows[..n], ids, events)
    ensures Loads(rows[..n + 1], ids, events)
            <==> RowInside(rows[n], ids, events) && KeyOf(rows[n]) !in MatrixOf(rows[..n])
    ensures MatrixOf(rows[..n + 1]) == MatrixOf(rows[..n])[KeyOf(rows[n]) := CellOf(rows[n])]
    ensures Loads(rows, ids, events) ==> Loads(rows[..n + 1], ids, events)
  {
    assert rows[..n + 1][..n] == rows[..n];
    if Loads(rows, ids, events) { LoadsPrefix(rows, n + 1, ids, events); }
  }

  ghost function Pairs<E>(ids: seq<string>, events: seq<E>): set<(string, E)> {
    set id, e | id in ids && e in events :: (id, e)
  }

  lemma {:induction false} PairCount<E>(ids: seq<string>, events: seq<E>)
    requires Distinct(ids) && Distinct(events)
    ensures |Pairs(ids, events)| == |ids| * |events|
  {
    if ids == [] {
      assert Pairs(ids, events) == {};
    } else {
      var rest := ids[..|ids| - 1];
      var id := ids[|ids| - 1];
      assert ids == rest + [id];
      PairCount(rest, events);
      ColumnCount(id, events);
      PairsSnoc(rest, id, events);
    }
  }

  lemma PairsSnoc<E>(rest: seq<string>, id: string, events: seq<E>)
    requires id !in rest
    ensures |Pairs(rest + [id], events)| == |Pairs(rest, events)| + |set e | e in events :: (id, e)|
  {
    var column := set e | e in events :: (id, e);
    assert Pairs(rest + [id], events) == Pairs(rest, events) + column;
    assert Pairs(rest, events) !! column;
  }

  lemma {:induction false} ColumnCount<E>(id: string, events: seq<E>)
    requires Distinct(events)
    ensures |set e | e in events :: (id, e)| == |events|
  {
    if events == [] {
      assert (set e | e in events :: (id, e)) == {};
    } else {
      var rest := events[..|events| - 1];
      assert events == rest + [events[|events| - 1]];
      ColumnCount(id, rest);
      assert (set e | e in events :: (id, e)) == (set e | e in rest :: (id, e)) + {(id, events[|events| - 1])};
    }
  }

  /** Distinct keys and the right count leave no cell empty. */
  lemma CountForcesTotality<E>(m: Matrix<E>, ids: seq<string>, events: seq<E>)
    requires Distinct(ids) && Distinct(events)
    requires m.Keys <= Pairs(ids, events) && |m| == |ids| * |events|
    ensures m.Keys == Pairs(ids, events)
  {
    PairCount(ids, events);
    assert |m.Keys| == |m|;
    SubsetOfSameSize(m.Keys, Pairs(ids, events));
  }

  lemma SortKeepsIds(ids: seq<string>)
    requires Distinct(ids)
    ensures Distinct(Sort(ids, LexLe)) && SetOf(Sort(ids, LexLe)) == SetOf(ids) && |Sort(ids, LexLe)| == |ids|
  {
    SortPermutes(ids, LexLe);
    var sorted := Sort(ids, LexLe);
    forall id
      ensures id in sorted <==> id in ids
    {
      assert id in multiset(sorted) <==> id in multiset(ids);
    }
    DistinctCount(ids);
    assert SetOf(sorted) == SetOf(ids);
    DistinctCount(sorted);
  }

  ghost predicate Filled<E>(m: Matrix<E>, ids: seq<string>, id: string, e: E) {
    (id, e) in m && m[(id, e)].target in ids
  }

  ghost predicate AllFilled<E(!new)>(m: Matrix<E>, ids: seq<string>, events: seq<E>) {
    forall id, e {:trigger Filled(m, ids, id, e)} :: id in ids && e in events ==> Filled(m, ids, id, e)
  }

  /** A total matrix over a list of distinct keys. */
  ghost predicate Total<E(!new)>(v: Validated<E>, events: seq<E>) {
    && Distinct(v.ids) && (forall id :: id in v.ids ==> GoodKey(id))
    && AllFilled(v.matrix, v.ids, events)
  }

  /** The loop over the rows: every check in turn, then the assignment. */
  method ReadRows<E(==, !new)>(rows: seq<Row<E>>, ids: seq<string>, events: seq<E>) returns (r: Result<Matrix<E>, GraphError>)
    ensures r.Ok? <==> Loads(rows, ids, events)
    ensures r.Ok? ==> r.value == MatrixOf(rows)
  {
    var known := SetOf(ids);
    var matrix: Matrix<E> := map[];
    var n := 0;
    while n < |rows|
      invariant 0 <= n <= |rows|
      invariant matrix == MatrixOf(rows[..n]) && Loads(rows[..n], ids, events)
    {
      var row := rows[n];
      LoadsNext(rows, n, ids, events);
      if row.source !in known || row.target !in known || row.event !in events {
        return Err(OutsideGraph);
      }
      if (row.source, row.event) in matrix {
        return Err(DuplicateRow);
      }
      matrix := matrix[(row.source, row.event) := Cell(row.target, row.accepted)];
      n := n + 1;
    }
    assert rows[..n] == rows;
    r := Ok(matrix);
  }

  /** `_validated_graph`: accepts exactly the well-formed graphs, and then every cell is filled. */
  method ValidatedGraph<E(==, !new)>(g: Graph<E>, events: seq<E>) returns (r: Result<Validated<E>, GraphError>)
    requires Distinct(events)
    ensures r.Ok? <==> WellFormed(g, events)
    ensures r.Ok? ==> Total(r.value, events) && r.value.ids == Sort(g.stateIds, LexLe)
    ensures r.Ok? ==> Records(r.value.matrix, g.rows)
  {
    var n := 0;
    while n < |g.stateIds|
      invariant 0 <= n <= |g.stateIds|
      invariant forall i :: 0 <= i < n ==> GoodKey(g.stateIds[i])
    {
      if !GoodKey(g.stateIds[n]) {
        return Err(MalformedId);
      }
      n := n + 1;
    }
    DistinctCount(g.stateIds);
    if |SetOf(g.stateIds)| != |g.stateIds| || g.stateCount != |g.stateIds| {
      return Err(InconsistentAccounting);
    }
    var ids := Sort(g.stateIds, LexLe);
    var matrix := ReadRows(g.rows, g.stateIds, events);
    LoadsIff(g.rows, g.stateIds, events);
    if matrix.Err? {
      return Err(matrix.error);
    }
    LoadedRecords(g.rows, g.stateIds, events);
    var expected := |ids| * |events|;
    SortKeepsIds(g.stateIds);
    if |matrix.value| != expected || g.transitionCount != expected {
      return Err(Incomplete);
    }
    InsideMeansTotal(matrix.value, g.rows, g.stateIds, events);
    SortedTotal(g.stateIds, matrix.value, events);
    r := Ok(Validated(ids, matrix.value));
  }

  lemma SortedTotal<E(!new)>(ids: seq<string>, m: Matrix<E>, events: seq<E>)
    requires Distinct(ids) && (forall i :: 0 <= i < |ids| ==> GoodKey(ids[i])) && AllFilled(m, ids, events)
    ensures Total(Validated(Sort(ids, LexLe), m), events)
  {
    var sorted := Sort(ids, LexLe);
    SortKeepsIds(ids);
    SameMembers(sorted, ids);
    forall id, e | id in sorted && e in events
      ensures Filled(m, sorted, id, e)
    {
      assert Filled(m, ids, id, e);
    }
  }

  lemma SameMembers(a: seq<string>, b: seq<string>)
    requires SetOf(a) == SetOf(b)
    ensures forall id :: id in a <==> id in b
  {
    assert forall id :: id in a <==> id in SetOf(a);
    assert forall id :: id in b <==> id in SetOf(b);
  }

  lemma InsideMeansTotal<E(!new)>(m: Matrix<E>, rows: seq<Row<E>>, ids: seq<string>, events: seq<E>)
    requires Distinct(ids) && Distinct(events) && |m| == |ids| * |events|
    requires Records(m, rows) && forall row :: row in rows ==> RowInside(row, ids, events)
    ensures AllFilled(m, ids, events)
  {
    forall key | key in m
      ensures key in Pairs(ids, events) && m[key].target in ids
    {
      var i :| 0 <= i < |rows| && KeyOf(rows[i]) == key;
      assert rows[i] in rows;
    }
    CountForcesTotality(m, ids, events);
    forall id, e | id in ids && e in events
      ensures Filled(m, ids, id, e)
    {
      assert (id, e) in Pairs(ids, events);
    }
  }

  // ---- Lowering -------------------------------------------------------------------------------

  /** The two `static const uint8_t` arrays of the generated C. */
  datatype Tables = Tables(next: seq<seq<nat>>, accept: seq<seq<nat>>)

  function IndexOf(ids: seq<string>, id: string): (i: nat)
    requires id in ids
    ensures i < |ids| && ids[i] == id
  {
    if ids[0] == id then 0 else 1 + IndexOf(ids[1..], id)
  }

  /** Every entry decodes to the cell it was compiled from. */
  ghost predicate Lowers<E(!new)>(t: Tables, v: Validated<E>, events: seq<E>)
    requires Total(v, events)
  {
    && |t.next| == |v.ids| == |t.accept|
    && (forall i :: 0 <= i < |v.ids| ==> RowLowers(t.next[i], t.accept[i], v, events, v.ids[i]))
  }

  ghost predicate RowLowers<E(!new)>(next: seq<nat>, accept: seq<nat>, v: Validated<E>, events: seq<E>, id: string)
    requires Total(v, events) && id in v.ids
  {
    && |next| == |events| == |accept|
    && forall k :: 0 <= k < |events| ==>
         EntryLowers(next[k], accept[k], v.ids, CellAt(v, events, id, events[k]))
  }

  function CellAt<E(==, !new)>(v: Validated<E>, ghost events: seq<E>, id: string, e: E): (c: Cell)
    requires Total(v, events) && id in v.ids && e in events
    ensures c.target in v.ids
  {
    assert Filled(v.matrix, v.ids, id, e);
    v.matrix[(id, e)]
  }

  ghost predicate EntryLowers(next: nat, accept: nat, ids: seq<string>, cell: Cell) {
    next < |ids| && ids[next] == cell.target && accept == if cell.accepted then 1 else 0
  }

  /** `synthesize_lifecycle_candidate` and `synthesize_control_loop_candidate`, up to printing. */
  method Synthesize<E(==, !new)>(v: Validated<E>, events: seq<E>) returns (t: Tables)
    requires Total(v, events)
    ensures Lowers(t, v, events)
  {
    var next: seq<seq<nat>>, accept: seq<seq<nat>> := [], [];
    var i := 0;
    while i < |v.ids|
      invariant 0 <= i <= |v.ids| && |next| == i == |accept|
      invariant forall j :: 0 <= j < i ==> RowLowers(next[j], accept[j], v, events, v.ids[j])
    {
      var nextRow, acceptRow := SynthesizeRow(v, events, v.ids[i]);
      next, accept := next + [nextRow], accept + [acceptRow];
      i := i + 1;
    }
    t := Tables(next, accept);
  }

  method SynthesizeRow<E(==, !new)>(v: Validated<E>, events: seq<E>, id: string)
    returns (next: seq<nat>, accept: seq<nat>)
    requires Total(v, events) && id in v.ids
    ensures RowLowers(next, accept, v, events, id)
  {
    next, accept := [], [];
    var k := 0;
    while k < |events|
      invariant 0 <= k <= |events| && |next| == k == |accept|
      invariant forall j :: 0 <= j < k ==> EntryLowers(next[j], accept[j], v.ids, CellAt(v, events, id, events[j]))
    {
      var cell := CellAt(v, events, id, events[k]);
      next, accept := next + [IndexOf(v.ids, cell.target)], accept + [if cell.accepted then 1 else 0];
      k := k + 1;
    }
  }

  // ---- The generated C ------------------------------------------------------------------------

  /** Storing a value in a `uint8_t` keeps its low eight bits. */
  function Uint8(n: nat): nat { n % 256 }

  datatype CResult = CResult(nextState: nat, accepted: nat)

  /** One call of the generated step function; `None` is the return code -1. */
  function CStep(t: Tables, stateCount: nat, eventCount: nat, state: nat, event: nat): Option<CResult>
    requires Shaped(t, stateCount, eventCount)
  {
    if state >= stateCount || event >= eventCount then None
    else Some(CResult(Uint8(t.next[state][event]), Uint8(t.accept[state][event])))
  }

  function KeyValue(key: string): nat {
    if key == "" then 0 else 2 * KeyValue(key[..|key| - 1]) + if key[|key| - 1] == '1' then 1 else 0
  }

  lemma {:induction false} KeyValueBounded(key: string)
    ensures KeyValue(key) < Pow2(|key|)
  {
    if key != "" { KeyValueBounded(key[..|key| - 1]); }
  }

  predicate Binary(key: string) {
    forall i :: 0 <= i < |key| ==> key[i] in {'0', '1'}
  }

  lemma {:induction false} KeyValueInjective(a: string, b: string)
    requires |a| == |b| && Binary(a) && Binary(b) && KeyValue(a) == KeyValue(b)
    ensures a == b
  {
    if a != "" {
      var n := |a| - 1;
      assert a[n] in {'0', '1'} && b[n] in {'0', '1'};
      assert KeyValue(a) % 2 == (if a[n] == '1' then 1 else 0);
      assert KeyValue(b) % 2 == (if b[n] == '1' then 1 else 0);
      KeyValueInjective(a[..n], b[..n]);
      assert a == a[..n] + [a[n]] && b == b[..n] + [b[n]];
    }
  }

  lemma KeysOfWidth(ids: seq<string>, width: nat)
    requires Distinct(ids) && forall i :: 0 <= i < |ids| ==> |ids[i]| == width && Binary(ids[i])
    ensures |ids| <= Pow2(width)
  {
    var values := seq(|ids|, i requires 0 <= i < |ids| => KeyValue(ids[i]));
    forall i, j | 0 <= i < j < |ids|
      ensures values[i] != values[j]
    {
      if values[i] == values[j] { KeyValueInjective(ids[i], ids[j]); }
    }
    DistinctCount(values);
    var all := Upto(Pow2(width));
    forall i | 0 <= i < |ids|
      ensures values[i] in all
    {
      KeyValueBounded(ids[i]);
    }
    SubsetSize(SetOf(values), all);
  }

  /** Eight-digit keys are at most 256, so no state index overflows its `uint8_t` cell. */
  lemma IndexesFitUint8(ids: seq<string>)
    requires Distinct(ids) && forall id :: id in ids ==> GoodKey(id)
    ensures |ids| <= 256
  {
    forall i | 0 <= i < |ids|
      ensures |ids[i]| == 8 && Binary(ids[i])
    {
      assert GoodKey(ids[i]);
    }
    KeysOfWidth(ids, 8);
    assert Pow2(8) == 256;
  }

  ghost function Upto(n: nat): (s: set<nat>)
    ensures |s| == n && forall k: nat :: k in s <==> k < n
  {
    if n == 0 then {} else Upto(n - 1) + {n - 1}
  }

  /** Where a run of the matrix ends, and the accept bits it shows on the way. */
  datatype Trace<P> = Trace(place: P, bits: seq<bool>)

  function MatrixRun<E(==, !new)>(v: Validated<E>, ghost events: seq<E>, id: string, run: seq<E>): (r: Trace<string>)
    requires Total(v, events) && id in v.ids && forall i :: 0 <= i < |run| ==> run[i] in events
  {
    if run == [] then Trace(id, [])
    else
      var before := MatrixRun(v, events, id, run[..|run| - 1]);
      var cell := CellAt(v, events, before.place, run[|run| - 1]);
      Trace(cell.target, before.bits + [cell.accepted])
  }

  predicate Shaped(t: Tables, stateCount: nat, eventCount: nat) {
    && |t.next| == stateCount == |t.accept|
    && forall i :: 0 <= i < stateCount ==> |t.next[i]| == eventCount == |t.accept[i]|
  }

  /** A host that feeds each returned index back in, giving up on the first -1. */
  function CRun(t: Tables, stateCount: nat, eventCount: nat, state: nat, run: seq<nat>): Option<Trace<nat>>
    requires Shaped(t, stateCount, eventCount)
  {
    if run == [] then Some(Trace(state, []))
    else
      match CRun(t, stateCount, eventCount, state, run[..|run| - 1])
      case None => None
      case Some(before) =>
        match CStep(t, stateCount, eventCount, before.place, run[|run| - 1])
        case None => None
        case Some(r) => Some(Trace(r.nextState, before.bits + [r.accepted != 0]))
  }

  predicate InRange(run: seq<nat>, count: nat) {
    forall i :: 0 <= i < |run| ==> run[i] < count
  }

  function Named<E>(events: seq<E>, run: seq<nat>): (r: seq<E>)
    requires InRange(run, |events|)
  {
    seq(|run|, i requires 0 <= i < |run| => events[run[i]])
  }

  lemma StepOfEntry(t: Tables, stateCount: nat, eventCount: nat, state: nat, event: nat, ids: seq<string>, cell: Cell)
    requires Shaped(t, stateCount, eventCount) && state < stateCount && event < eventCount && |ids| <= 256
    requires EntryLowers(t.next[state][event], t.accept[state][event], ids, cell)
    ensures StepSays(CStep(t, stateCount, eventCount, state, event), ids, cell)
  {}

  ghost predicate StepSays(r: Option<CResult>, ids: seq<string>, cell: Cell) {
    && r.Some? && r.value.nextState < |ids| && ids[r.value.nextState] == cell.target
    && (r.value.accepted != 0 <==> cell.accepted)
  }

  /** One table lookup is one matrix step. */
  lemma CStepRefinesMatrix<E(!new)>(t: Tables, v: Validated<E>, events: seq<E>, state: nat, event: nat)
    requires Total(v, events) && Lowers(t, v, events) && state < |v.ids| && event < |events|
    requires Shaped(t, |v.ids|, |events|)
    ensures StepSays(CStep(t, |v.ids|, |events|, state, event), v.ids, CellAt(v, events, v.ids[state], events[event]))
  {
    IndexesFitUint8(v.ids);
    StepOfEntry(t, |v.ids|, |events|, state, event, v.ids, CellAt(v, events, v.ids[state], events[event]));
  }

  ghost predicate Follows(c: Option<Trace<nat>>, m: Trace<string>, ids: seq<string>) {
    c.Some? && c.value.place < |ids| && ids[c.value.place] == m.place && c.value.bits == m.bits
  }

  /** For every event sequence, the C tables visit the indexes of the states the matrix visits, bit for bit. */
  lemma {:induction false} CRunRefinesMatrix<E(!new)>(t: Tables, v: Validated<E>, events: seq<E>, state: nat, run: seq<nat>)
    requires Total(v, events) && Lowers(t, v, events) && state < |v.ids|
    requires InRange(run, |events|) && Shaped(t, |v.ids|, |events|)
    ensures Follows(CRun(t, |v.ids|, |events|, state, run),
                    MatrixRun(v, events, v.ids[state], Named(events, run)), v.ids)
  {
    if run != [] {
      var n := |run| - 1;
      CRunRefinesMatrix(t, v, events, state, run[..n]);
      assert Named(events, run)[..n] == Named(events, run[..n]);
      CStepRefinesMatrix(t, v, events, CRun(t, |v.ids|, |events|, state, run[..n]).value.place, run[n]);
    }
  }

  // ---- The listing order of the receipt is irrelevant -----------------------------------------

  /** Receipts that list the same states and the same rows validate to the same matrix. */
  lemma ListingOrderIsIrrelevant<E(!new)>(g: Graph<E>, h: Graph<E>, m: Matrix<E>, m': Matrix<E>)
    requires multiset(g.stateIds) == multiset(h.stateIds) && multiset(g.rows) == multiset(h.rows)
    requires Records(m, g.rows) && Records(m', h.rows)
    ensures Sort(g.stateIds, LexLe) == Sort(h.stateIds, LexLe)
    ensures m == m'
  {
    LexRanks(g.stateIds);
    SortForgetsOrder(g.stateIds, h.stateIds, LexLe);
    SameRows(m, m', g.rows, h.rows);
    SameRows(m', m, h.rows, g.rows);
    assert m.Keys == m'.Keys;
  }

  lemma SameRows<E(!new)>(m: Matrix<E>, m': Matrix<E>, rows: seq<Row<E>>, rows': seq<Row<E>>)
    requires multiset(rows) == multiset(rows') && Records(m, rows) && Records(m', rows')
    ensures forall key :: key in m ==> key in m' && m[key] == m'[key]
  {
    forall key | key in m
      ensures key in m' && m[key] == m'[key]
    {
      var i :| 0 <= i < |rows| && KeyOf(rows[i]) == key;
      assert rows[i] in multiset(rows');
      var j :| 0 <= j < |rows'| && rows'[j] == rows[i];
      assert KeyOf(rows'[j]) in m';
    }
  }
}
