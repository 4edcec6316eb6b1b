/** The Last Known Good record, its content-addressed snapshots, and the decision that may replace it. */
module KnownGoodStore {
  import opened Common

  type Digest = nat

  // ---- Records --------------------------------------------------------------------------------

  datatype Active = Active(profileId: string, generation: nat, score7: int, fingerprint: string, artifact: Digest)

  /** A snapshot file is named after the digest of its content, so its name is that digest. */
  datatype Rollback = Rollback(snapshot: Digest, sha256: Digest, profileId: string)

  datatype Record = Record(active: Active, rollback: Option<Rollback>, protectedSnapshots: seq<Digest>)

  datatype Store = Store(lkg: Option<Record>, snapshots: map<Digest, Record>)

  type Hash = Record -> Digest

  /** SHA-256 over canonical JSON, idealised. */
  ghost predicate Injective(hash: Hash) {
    forall a, b :: hash(a) == hash(b) ==> a == b
  }

  datatype StoreError = SnapshotVerificationFailed | NoLkg | NoRollbackTarget | SnapshotMissing | SnapshotMismatch

  function Linked(hash: Hash, current: Record, candidate: Active): Record {
    var digest := hash(current);
    Record(
      candidate,
      Some(Rollback(digest, digest, current.active.profileId)),
      if digest in current.protectedSnapshots then current.protectedSnapshots
      else current.protectedSnapshots + [digest])
  }

  /** `promote_candidate` as a change of the store. */
  function Promoted(hash: Hash, st: Store, current: Record, candidate: Active): Result<Store, StoreError> {
    var digest := hash(current);
    var snapshots := if digest in st.snapshots then st.snapshots else st.snapshots[digest := current];
    if hash(snapshots[digest]) != digest then Err(SnapshotVerificationFailed)
    else Ok(Store(Some(Linked(hash, current, candidate)), snapshots))
  }

  /** `rollback_to_previous` as a change of the store. */
  function RolledBack(hash: Hash, st: Store): Result<Store, StoreError> {
    if st.lkg.None? then Err(NoLkg)
    else if st.lkg.value.rollback.None? then Err(NoRollbackTarget)
    else
      var target := st.lkg.value.rollback.value;
      if target.snapshot !in st.snapshots then Err(SnapshotMissing)
      else if hash(st.snapshots[target.snapshot]) != target.sha256 then Err(SnapshotMismatch)
      else Ok(st.(lkg := Some(st.snapshots[target.snapshot])))
  }

  /** The state directory: `lkg.json` and `lkg-snapshots/`. */
  class StateDirectory {
    const hash: Hash
    var lkg: Option<Record>
    var snapshots: map<Digest, Record>

    function View(): Store
      reads this
    {
      Store(lkg, snapshots)
    }

    constructor (hash: Hash)
      ensures this.hash == hash && View() == Store(None, map[])
    {
      this.hash := hash;
      lkg, snapshots := None, map[];
    }

    /** `ensure_lkg`: an existing record is never touched. */
    method Ensure(reference: Active) returns (current: Record)
      modifies this
      ensures lkg == Some(current) && snapshots == old(snapshots)
      ensures current == if old(lkg).Some? then old(lkg).value else Record(reference, None, [])
    {
      if lkg.Some? {
        return lkg.value;
      }
      current := Record(reference, None, []);
      lkg := Some(current);
    }

    /** `promote_candidate`: a snapshot that does not verify raises before anything is written. */
    method Promote(current: Record, candidate: Active) returns (r: Result<Record, StoreError>)
      modifies this
      ensures r.Ok? <==> Promoted(hash, old(View()), current, candidate).Ok?
      ensures r.Ok? ==> View() == Promoted(hash, old(View()), current, candidate).value && lkg == Some(r.value)
      ensures r.Err? ==> View() == old(View())
    {
      var digest := hash(current);
      if digest !in snapshots {
        snapshots := snapshots[digest := current];
      }
      if hash(snapshots[digest]) != digest {
        return Err(SnapshotVerificationFailed);
      }
      var protected := current.protectedSnapshots;
      if digest !in protected {
        protected := protected + [digest];
      }
      var promoted := Record(candidate, Some(Rollback(digest, digest, current.active.profileId)), protected);
      lkg := Some(promoted);
      r := Ok(promoted);
    }

    method RollBack() returns (r: Result<Record, StoreError>)
      modifies this
      ensures r.Err? ==> RolledBack(hash, old(View())) == Err(r.error) && View() == old(View())
      ensures r.Ok? ==> RolledBack(hash, old(View())) == Ok(View()) && lkg == Some(r.value)
    {
      if lkg.None? {
        return Err(NoLkg);
      }
      if lkg.value.rollback.None? {
        return Err(NoRollbackTarget);
      }
      var target := lkg.value.rollback.value;
      if target.snapshot !in snapshots {
        return Err(SnapshotMissing);
      }
      var restored := snapshots[target.snapshot];
      if hash(restored) != target.sha256 {
        return Err(SnapshotMismatch);
      }
      lkg := Some(restored);
      r := Ok(restored);
    }
  }

  // ---- The store is a stack -------------------------------------------------------------------

  datatype Op = Push(candidate: Active) | Pop

  /** A promotion reads the record it replaces; an exception changes nothing. */
  function Apply(hash: Hash, st: Store, op: Op): Store {
    var r := match op
      case Push(candidate) => if st.lkg.None? then Err(NoLkg) else Promoted(hash, st, st.lkg.value, candidate)
      case Pop => RolledBack(hash, st);
    if r.Ok? then r.value else st
  }

  function Run(hash: Hash, st: Store, ops: seq<Op>): Store {
    if ops == [] then st else Apply(hash, Run(hash, st, ops[..|ops| - 1]), ops[|ops| - 1])
  }

  /** The abstract machine: a non-empty stack of records, the live one on top. */
  function StackOp(hash: Hash, stack: seq<Record>, op: Op): (r: seq<Record>)
    requires stack != []
  {
    match op
    case Push(candidate) => stack + [Linked(hash, stack[|stack| - 1], candidate)]
    case Pop => if |stack| > 1 then stack[..|stack| - 1] else stack
  }

  function StackRun(hash: Hash, stack: seq<Record>, ops: seq<Op>): (r: seq<Record>)
    requires stack != []
    ensures r != []
  {
    if ops == [] then stack else StackOp(hash, StackRun(hash, stack, ops[..|ops| - 1]), ops[|ops| - 1])
  }

  /** The link from each record to the one beneath it, and the snapshot that keeps it. */
  ghost predicate Link(hash: Hash, st: Store, below: Record, above: Record) {
    && above.rollback == Some(Rollback(hash(below), hash(below), below.active.profileId))
    && hash(below) in st.snapshots && st.snapshots[hash(below)] == below
    && hash(below) in above.protectedSnapshots
    && forall d :: d in below.protectedSnapshots ==> d in above.protectedSnapshots
  }

  ghost predicate Chain(hash: Hash, st: Store, stack: seq<Record>) {
    && stack != [] && st.lkg == Some(stack[|stack| - 1]) && stack[0].rollback.None?
    && (forall i :: 0 <= i < |stack| - 1 ==> Link(hash, st, stack[i], stack[i + 1]))
    && (forall d :: d in st.snapshots ==> hash(st.snapshots[d]) == d)
  }

  /** Every ancestor is present, content-consistent and protected by the live record. */
  lemma {:induction false} AncestorsAreProtected(hash: Hash, st: Store, stack: seq<Record>, i: nat, j: nat)
    requires Chain(hash, st, stack) && i < j < |stack|
    ensures hash(stack[i]) in st.snapshots && st.snapshots[hash(stack[i])] == stack[i]
    ensures hash(stack[i]) in stack[j].protectedSnapshots
    decreases j
  {
    assert Link(hash, st, stack[i], stack[i + 1]);
    if i + 1 < j {
      AncestorsAreProtected(hash, st, stack, i, j - 1);
      assert Link(hash, st, stack[j - 1], stack[j]);
    }
  }

  /** A directory in which the reference driver has just been recorded is a stack of one. */
  lemma FirstRecordIsAStack(hash: Hash, reference: Active)
    ensures Chain(hash, Store(Some(Record(reference, None, [])), map[]), [Record(reference, None, [])])
  {}

  lemma PushKeepsChain(hash: Hash, st: Store, stack: seq<Record>, candidate: Active)
    requires Injective(hash) && Chain(hash, st, stack)
    ensures Chain(hash, Apply(hash, st, Push(candidate)), StackOp(hash, stack, Push(candidate)))
  {
    var top := stack[|stack| - 1];
    var digest := hash(top);
    var after := Apply(hash, st, Push(candidate));
    var grown := StackOp(hash, stack, Push(candidate));
    if digest in st.snapshots { assert st.snapshots[digest] == top; }
    forall i | 0 <= i < |grown| - 1
      ensures Link(hash, after, grown[i], grown[i + 1])
    {
      if i < |stack| - 1 { assert Link(hash, st, stack[i], stack[i + 1]); }
    }
  }

  lemma PopKeepsChain(hash: Hash, st: Store, stack: seq<Record>)
    requires Chain(hash, st, stack)
    ensures Chain(hash, Apply(hash, st, Pop), StackOp(hash, stack, Pop))
  {
    if |stack| > 1 {
      assert Link(hash, st, stack[|stack| - 2], stack[|stack| - 1]);
      var rest := StackOp(hash, stack, Pop);
      forall i | 0 <= i < |rest| - 1
        ensures Link(hash, Apply(hash, st, Pop), rest[i], rest[i + 1])
      {
        assert Link(hash, st, stack[i], stack[i + 1]);
      }
    }
  }

  /** Over every run of promotions and rollbacks the directory holds exactly what the stack machine says. */
  lemma {:induction false} StoreIsAStack(hash: Hash, st: Store, stack: seq<Record>, ops: seq<Op>)
    requires Injective(hash) && Chain(hash, st, stack)
    ensures Chain(hash, Run(hash, st, ops), StackRun(hash, stack, ops))
  {
    if ops != [] {
      var before := ops[..|ops| - 1];
      StoreIsAStack(hash, st, stack, before);
      match ops[|ops| - 1]
      case Push(candidate) =>
        PushKeepsChain(hash, Run(hash, st, before), StackRun(hash, stack, before), candidate);
      case Pop => PopKeepsChain(hash, Run(hash, st, before), StackRun(hash, stack, before));
    }
  }

  function Pops(n: nat): (ops: seq<Op>) {
    seq(n, _ => Pop)
  }

  lemma {:induction false} PopsUnwind(hash: Hash, stack: seq<Record>, ops: seq<Op>, n: nat)
    requires stack != [] && n < |StackRun(hash, stack, ops)|
    ensures StackRun(hash, stack, ops + Pops(n)) == StackRun(hash, stack, ops)[..|StackRun(hash, stack, ops)| - n]
  {
    var top := StackRun(hash, stack, ops);
    if n == 0 {
      assert ops + Pops(0) == ops;
    } else {
      PopsUnwind(hash, stack, ops, n - 1);
      assert ops + Pops(n) == (ops + Pops(n - 1)) + [Pop];
    }
  }

  lemma {:induction false} PushesGrow(hash: Hash, stack: seq<Record>, pushes: seq<Op>)
    requires stack != [] && forall i :: 0 <= i < |pushes| ==> pushes[i].Push?
    ensures |StackRun(hash, stack, pushes)| == |stack| + |pushes|
    ensures stack <= StackRun(hash, stack, pushes)
  {
    if pushes != [] { PushesGrow(hash, stack, pushes[..|pushes| - 1]); }
  }

  /** n promotions followed by n rollbacks restore the exact record they started from. */
  lemma RollbacksUndoPromotions(hash: Hash, st: Store, stack: seq<Record>, pushes: seq<Op>)
    requires Injective(hash) && Chain(hash, st, stack)
    requires forall i :: 0 <= i < |pushes| ==> pushes[i].Push?
    ensures Run(hash, st, pushes + Pops(|pushes|)).lkg == st.lkg
  {
    StoreIsAStack(hash, st, stack, pushes + Pops(|pushes|));
    PushesGrow(hash, stack, pushes);
    PopsUnwind(hash, stack, pushes, |pushes|);
    assert StackRun(hash, stack, pushes)[..|stack|] == stack;
  }

  /** Snapshots are only ever added. */
  lemma {:induction false} SnapshotsPersist(hash: Hash, st: Store, ops: seq<Op>, d: Digest)
    requires d in st.snapshots
    ensures d in Run(hash, st, ops).snapshots && Run(hash, st, ops).snapshots[d] == st.snapshots[d]
  {
    if ops != [] { SnapshotsPersist(hash, st, ops[..|ops| - 1], d); }
  }

  // ---- The trial of a candidate ---------------------------------------------------------------

  /** One run of the candidate: the fields it printed, or nothing if it failed or printed no object. */
  type Observation = map<string, string>

  const OBSERVATION_FIELDS := ["address", "carrier", "mtu", "operstate", "type", "rx_packets", "tx_packets"]
  const REPETITIONS := 3
  const RX := "rx_packets"
  const TX := "tx_packets"

  predicate IsCounter(field: string) { field == RX || field == TX }

  /** `int(text)`, which raises on text that is no number; the empty string is none. */
  type Parse = string -> Option<int>

  function Outputs(runs: seq<Option<Observation>>): (outputs: seq<Observation>)
    ensures |outputs| == |runs| ==> forall i :: 0 <= i < |runs| ==> runs[i] == Some(outputs[i])
    ensures |outputs| <= |runs|
  {
    if runs == [] then []
    else (if runs[0].Some? then [runs[0].value] else []) + Outputs(runs[1..])
  }

  function Get(o: Observation, field: string): Option<string> { if field in o then Some(o[field]) else None }

  function GetOr(o: Observation, field: string): string { if field in o then o[field] else "" }

  function NumberAt(parse: Parse, o: Observation, field: string): Option<int> {
    if field in o then parse(o[field]) else None
  }

  ghost predicate SteadyField(outputs: seq<Observation>, field: string) {
    forall i, j :: 0 <= i < j < |outputs| ==> Get(outputs[i], field) == Get(outputs[j], field)
  }

  /** A counter that was read every time and never went down. */
  ghost predicate RisingField(parse: Parse, outputs: seq<Observation>, field: string) {
    && (forall i :: 0 <= i < |outputs| ==> NumberAt(parse, outputs[i], field).Some?)
    && forall i, j :: 0 <= i < j < |outputs| ==>
         NumberAt(parse, outputs[i], field).value <= NumberAt(parse, outputs[j], field).value
  }

  ghost predicate Repeats(parse: Parse, fields: seq<string>, runs: seq<Option<Observation>>) {
    && |Outputs(runs)| == REPETITIONS
    && (forall k :: 0 <= k < |fields| && !IsCounter(fields[k]) ==> SteadyField(Outputs(runs), fields[k]))
    && (RX in fields ==> RisingField(parse, Outputs(runs), RX))
    && (TX in fields ==> RisingField(parse, Outputs(runs), TX))
  }

  /** The values of one counter: each is read and compared with the one before it. */
  method CounterRepeats(parse: Parse, outputs: seq<Observation>, field: string) returns (ok: bool)
    ensures ok <==> RisingField(parse, outputs, field)
  {
    var i := 0;
    while i < |outputs|
      invariant 0 <= i <= |outputs| && RisingField(parse, outputs[..i], field)
    {
      assert outputs[..i + 1][i] == outputs[i];
      if NumberAt(parse, outputs[i], field).None? {
        return false;
      }
      if i > 0 && NumberAt(parse, outputs[i - 1], field).value > NumberAt(parse, outputs[i], field).value {
        return false;
      }
      assert forall j :: 0 <= j < i ==> outputs[..i][j] == outputs[j] == outputs[..i + 1][j];
      i := i + 1;
    }
    assert outputs[..i] == outputs;
    ok := true;
  }

  /** The repeatability verdict of `load_and_test_candidate`. */
  method TestCandidate(parse: Parse, fields: seq<string>, runs: seq<Option<Observation>>) returns (repeatable: bool)
    ensures repeatable <==> Repeats(parse, fields, runs)
  {
    var outputs := Outputs(runs);
    var steady := outputs != [];
    var k := 0;
    while k < |fields|
      invariant 0 <= k <= |fields|
      invariant steady <==> outputs != []
                            && forall m :: 0 <= m < k && !IsCounter(fields[m]) ==> SteadyField(outputs, fields[m])
    {
      if !IsCounter(fields[k]) && outputs != [] {
        var same := forall i :: 0 <= i < |outputs| ==> Get(outputs[i], fields[k]) == Get(outputs[0], fields[k]);
        steady := steady && same;
      }
      k := k + 1;
    }
    var rising := true;
    if RX in fields {
      rising := CounterRepeats(parse, outputs, RX);
    }
    if rising && TX in fields {
      rising := CounterRepeats(parse, outputs, TX);
    }
    repeatable := |outputs| == REPETITIONS && steady && rising;
  }

  /** The comparator of one field: counters may have moved on, everything else must be equal. */
  predicate Agrees(parse: Parse, field: string, observed: Observation, baseline: Observation) {
    if IsCounter(field) then
      var now, before := parse(GetOr(observed, field)), parse(GetOr(baseline, field));
      now.Some? && before.Some? && now.value >= before.value
    else GetOr(observed, field) == GetOr(baseline, field)
  }

  /** What a cycle learns about its candidate. */
  datatype Trial = Trial(
    fields: seq<string>, runs: seq<Option<Observation>>, baseline: Observation, missingFields: bool, evidenceUnchanged: bool)

  function FirstOutput(runs: seq<Option<Observation>>): Observation {
    if Outputs(runs) == [] then map[] else Outputs(runs)[0]
  }

  predicate FunctionalMatch(parse: Parse, t: Trial) {
    t.fields != [] && forall k :: 0 <= k < |t.fields| ==> Agrees(parse, t.fields[k], FirstOutput(t.runs), t.baseline)
  }

  /** Seven times the score, a whole number of sevenths; rounding to three decimals orders it alike against 100. */
  ghost function Score7(parse: Parse, t: Trial): nat {
    (if FunctionalMatch(parse, t) then 350 else 0) + 140 * |t.fields| / |OBSERVATION_FIELDS|
    + (if Repeats(parse, t.fields, t.runs) then 105 else 0) + (if t.evidenceUnchanged then 105 else 0)
  }

  /** `score_candidate`: the score, and whether every field agreed. */
  method ScoreCandidate(parse: Parse, t: Trial, repeatable: bool) returns (score7: nat, matched: bool)
    requires repeatable <==> Repeats(parse, t.fields, t.runs)
    ensures score7 == Score7(parse, t) && matched == FunctionalMatch(parse, t)
  {
    var observation := FirstOutput(t.runs);
    matched := t.fields != [];
    var k := 0;
    while k < |t.fields|
      invariant 0 <= k <= |t.fields|
      invariant matched <==> t.fields != [] && forall m :: 0 <= m < k ==> Agrees(parse, t.fields[m], observation, t.baseline)
    {
      if !Agrees(parse, t.fields[k], observation, t.baseline) {
        matched := false;
      }
      k := k + 1;
    }
    score7 := 0;
    if matched {
      score7 := score7 + 350;
    }
    score7 := score7 + 140 * |t.fields| / |OBSERVATION_FIELDS|;
    if repeatable {
      score7 := score7 + 105;
    }
    if t.evidenceUnchanged {
      score7 := score7 + 105;
    }
  }

  // ---- The decision ---------------------------------------------------------------------------

  datatype Decision =
    | GateHeld | FingerprintChanged | BuildFailed | LkgChanged | FieldUnavailable | Mismatched | ScoreTooLow
    | EligibleHeld | PromotedNow

  /** The chain of tests that follows a candidate's trial. */
  ghost function Decide(parse: Parse, lkgUntouched: bool, t: Trial, allowPromotion: bool): Decision {
    if !lkgUntouched then LkgChanged
    else if t.missingFields then FieldUnavailable
    else if !FunctionalMatch(parse, t) || !Repeats(parse, t.fields, t.runs) then Mismatched
    else if Score7(parse, t) < 700 then ScoreTooLow
    else if !allowPromotion then EligibleHeld
    else PromotedNow
  }

  /**
   * Promotion, for any list of fields: everything must agree and repeat, the record be untouched and permission given,
   * and then either seven listed fields on unchanged evidence or thirteen on any.
   */
  lemma PromotionMeans(parse: Parse, lkgUntouched: bool, t: Trial, allowPromotion: bool)
    ensures Decide(parse, lkgUntouched, t, allowPromotion) == PromotedNow
            <==> lkgUntouched && !t.missingFields && FunctionalMatch(parse, t) && Repeats(parse, t.fields, t.runs)
                 && allowPromotion && (|t.fields| >= 13 || (t.evidenceUnchanged && |t.fields| >= 7))
  {}

  /** A list that draws from the observation fields and repeats none, as every list of the catalog does. */
  ghost predicate ProperFields(fields: seq<string>) {
    Distinct(fields) && forall k :: 0 <= k < |fields| ==> fields[k] in OBSERVATION_FIELDS
  }

  lemma FieldNames(all: set<string>)
    requires all == SetOf(OBSERVATION_FIELDS)
    ensures |all| == |OBSERVATION_FIELDS| == 7
  {
    DistinctNames(OBSERVATION_FIELDS);
    DistinctCount(OBSERVATION_FIELDS);
  }

  /** The seven names differ in their first two letters. */
  lemma DistinctNames(names: seq<string>)
    requires names == OBSERVATION_FIELDS
    ensures Distinct(names)
  {
    var starts := [('a', 'd'), ('c', 'a'), ('m', 't'), ('o', 'p'), ('t', 'y'), ('r', 'x'), ('t', 'x')];
    assert forall i :: 0 <= i < 7 ==> |names[i]| >= 2 && (names[i][0], names[i][1]) == starts[i];
  }

  /** Such a list has at most seven fields, and seven exactly when it has them all. */
  lemma CoverageMeans(fields: seq<string>)
    requires ProperFields(fields)
    ensures |fields| <= 7
    ensures |fields| == 7 <==> forall field :: field in OBSERVATION_FIELDS ==> field in fields
  {
    var all := SetOf(OBSERVATION_FIELDS);
    FieldNames(all);
    DistinctCount(fields);
    SubsetSize(SetOf(fields), all);
    if |fields| == 7 {
      SubsetOfSameSize(SetOf(fields), all);
      forall field | field in OBSERVATION_FIELDS
        ensures field in fields
      {
        assert field in all;
      }
    }
    if forall field :: field in OBSERVATION_FIELDS ==> field in fields {
      assert SetOf(fields) == all;
    }
  }

  /** For a proper list, promotion is full coverage, agreement, repeatability, unchanged evidence, record and permission. */
  lemma ProperPromotionMeans(parse: Parse, lkgUntouched: bool, t: Trial, allowPromotion: bool)
    requires ProperFields(t.fields)
    ensures Decide(parse, lkgUntouched, t, allowPromotion) == PromotedNow
            <==> lkgUntouched && !t.missingFields && FunctionalMatch(parse, t) && Repeats(parse, t.fields, t.runs)
                 && t.evidenceUnchanged && allowPromotion
                 && forall field :: field in OBSERVATION_FIELDS ==> field in t.fields
  {
    CoverageMeans(t.fields);
    PromotionMeans(parse, lkgUntouched, t, allowPromotion);
  }

  /**
   * Only the first run is compared with the reference, but a promoted candidate agrees with it in every run:
   * fixed fields read the same each time, and each counter starts no lower than the reference and never falls.
   */
  lemma PromotedAgreesInEveryRun(parse: Parse, lkgUntouched: bool, t: Trial, allowPromotion: bool, i: nat, k: nat)
    requires Decide(parse, lkgUntouched, t, allowPromotion) == PromotedNow && i < |t.runs| == REPETITIONS && k < |t.fields|
    ensures t.runs[i].Some? && Agrees(parse, t.fields[k], t.runs[i].value, t.baseline)
  {
    var outputs := Outputs(t.runs);
    assert t.runs[i] == Some(outputs[i]) && t.runs[0] == Some(outputs[0]);
    assert Agrees(parse, t.fields[k], outputs[0], t.baseline);
    if IsCounter(t.fields[k]) {
      assert RisingField(parse, outputs, t.fields[k]);
      if i > 0 { assert NumberAt(parse, outputs[0], t.fields[k]).value <= NumberAt(parse, outputs[i], t.fields[k]).value; }
    } else {
      assert SteadyField(outputs, t.fields[k]);
      if i > 0 { assert Get(outputs[0], t.fields[k]) == Get(outputs[i], t.fields[k]); }
    }
  }

  /**
   * In general the score stands for unchanged evidence only up to twelve listed fields, since coverage is not
   * capped: from thirteen on, a matching and repeatable candidate is promoted either way.
   */
  lemma ScoreGuardsEvidenceUpToTwelve(parse: Parse, t: Trial)
    requires FunctionalMatch(parse, t) && Repeats(parse, t.fields, t.runs) && !t.missingFields
    ensures (Decide(parse, true, t.(evidenceUnchanged := false), true) != PromotedNow) <==> |t.fields| <= 12
  {}

  lemma OneFieldManyTimes(parse: Parse, field: string, fields: seq<string>, o: Observation, same: bool)
    requires fields != [] && !IsCounter(field) && field in o && forall k :: 0 <= k < |fields| ==> fields[k] == field
    ensures
      var t := Trial(fields, [Some(o), Some(o), Some(o)], o, false, same);
      FunctionalMatch(parse, t) && Repeats(parse, t.fields, t.runs)
  {
    var t := Trial(fields, [Some(o), Some(o), Some(o)], o, false, same);
    var one, two := [Some(o)], [Some(o), Some(o)];
    assert t.runs[1..] == two && two[1..] == one && one[1..] == [];
    assert Outputs(one) == [o] && Outputs(two) == [o, o] && Outputs(t.runs) == [o, o, o];
    assert RX !in fields && TX !in fields;
    assert SteadyField(Outputs(t.runs), field);
  }

  /** A candidate that lists the field "mtu" seven times is promoted, though it reads nothing else. */
  lemma SevenTimesOneFieldIsPromoted(parse: Parse, o: Observation)
    requires o == map["mtu" := "1500"]
    ensures
      var t := Trial(seq(7, _ => "mtu"), [Some(o), Some(o), Some(o)], o, false, true);
      Decide(parse, true, t, true) == PromotedNow && "address" !in t.fields
  {
    assert !IsCounter("mtu") && "mtu" != "address";
    OneFieldManyTimes(parse, "mtu", seq(7, _ => "mtu"), o, true);
  }

  /** A candidate that lists it thirteen times is promoted though the evidence has changed. */
  lemma ThirteenFieldsOutweighEvidence(parse: Parse, o: Observation)
    requires o == map["mtu" := "1500"]
    ensures
      var t := Trial(seq(13, _ => "mtu"), [Some(o), Some(o), Some(o)], o, false, false);
      Decide(parse, true, t, true) == PromotedNow
  {
    assert !IsCounter("mtu");
    OneFieldManyTimes(parse, "mtu", seq(13, _ => "mtu"), o, false);
  }

  // ---- Whole runs -----------------------------------------------------------------------------

  /** The inputs of one cycle; a promoted record takes its score from the trial and its fingerprint from the reference. */
  datatype Cycle = Cycle(
    gateAccepted: bool, reference: Active, candidate: Active, built: bool, trial: Trial, allowPromotion: bool)

  ghost function Credited(parse: Parse, c: Cycle): Active {
    c.candidate.(score7 := Score7(parse, c.trial), fingerprint := c.reference.fingerprint)
  }

  datatype Opened = Stopped(decision: Decision) | Testing(current: Record)

  /** `run_adaptive_driver_loop` up to the trial: the identity gate, `ensure_lkg`, the fingerprint, the build. */
  function Open(st: Store, c: Cycle): (Store, Opened) {
    if !c.gateAccepted then (st, Stopped(GateHeld))
    else
      var current := if st.lkg.Some? then st.lkg.value else Record(c.reference, None, []);
      var ensured := st.(lkg := Some(current));
      if current.active.fingerprint != c.reference.fingerprint then (ensured, Stopped(FingerprintChanged))
      else if !c.built then (ensured, Stopped(BuildFailed))
      else (ensured, Testing(current))
  }

  /** The rest of it, on the directory as it is after the trial; a promotion that fails raises. */
  ghost function Close(hash: Hash, parse: Parse, st: Store, c: Cycle, current: Record): Result<(Store, Decision), StoreError> {
    var decision := Decide(parse, st.lkg == Some(current), c.trial, c.allowPromotion);
    if decision != PromotedNow then Ok((st, decision))
    else
      match Promoted(hash, st, current, Credited(parse, c))
      case Err(e) => Err(e)
      case Ok(after) => Ok((after, PromotedNow))
  }

  datatype UnderTest = UnderTest(cycle: Cycle, current: Record)

  /** A state directory and the cycles, each in a process of its own, whose trial is under way. */
  datatype World = World(store: Store, trials: map<nat, UnderTest>)

  datatype Move = OpenMove(pid: nat, cycle: Cycle) | CloseMove(pid: nat) | RollBackMove

  /** One step of any process; a process that reuses an id stands for one whose predecessor died in its trial. */
  ghost function Step(hash: Hash, parse: Parse, w: World, m: Move): World {
    match m
    case OpenMove(pid, c) =>
      var (st, phase) := Open(w.store, c);
      World(st, if phase.Testing? then w.trials[pid := UnderTest(c, phase.current)] else w.trials)
    case CloseMove(pid) =>
      if pid !in w.trials then w
      else
        var r := Close(hash, parse, w.store, w.trials[pid].cycle, w.trials[pid].current);
        World(if r.Ok? then r.value.0 else w.store, w.trials - {pid})
    case RollBackMove =>
      var r := RolledBack(hash, w.store);
      w.(store := if r.Ok? then r.value else w.store)
  }

  ghost function After(hash: Hash, parse: Parse, moves: seq<Move>): World {
    if moves == [] then World(Store(None, map[]), map[])
    else Step(hash, parse, After(hash, parse, moves[..|moves| - 1]), moves[|moves| - 1])
  }

  predicate Untouched(w: World, pid: nat) { pid in w.trials && w.store.lkg == Some(w.trials[pid].current) }

  ghost predicate Promotes(parse: Parse, w: World, pid: nat) {
    Untouched(w, pid) && Decide(parse, true, w.trials[pid].cycle.trial, w.trials[pid].cycle.allowPromotion) == PromotedNow
  }

  /** The history of a run as a stack: the first accepted reference, and what was promoted and not rolled back since. */
  ghost function StackOf(hash: Hash, parse: Parse, moves: seq<Move>): seq<Record> {
    if moves == [] then []
    else
      var before := moves[..|moves| - 1];
      var stack, w := StackOf(hash, parse, before), After(hash, parse, before);
      match moves[|moves| - 1]
      case OpenMove(_, c) => if stack == [] && c.gateAccepted then [Record(c.reference, None, [])] else stack
      case CloseMove(pid) =>
        if Promotes(parse, w, pid) then stack + [Linked(hash, w.trials[pid].current, Credited(parse, w.trials[pid].cycle))]
        else stack
      case RollBackMove => if |stack| > 1 then stack[..|stack| - 1] else stack
  }

  ghost predicate OneFingerprint(stack: seq<Record>) {
    forall i :: 0 <= i < |stack| ==> stack[i].active.fingerprint == stack[0].active.fingerprint
  }

  /** The directory is the stack, or empty before the first record; every trial under way has the stack's fingerprint. */
  ghost predicate Standing(hash: Hash, w: World, stack: seq<Record>) {
    && (if stack == [] then w.store == Store(None, map[]) && w.trials == map[] else Chain(hash, w.store, stack))
    && OneFingerprint(stack)
    && forall pid :: pid in w.trials ==>
         && w.trials[pid].current.active.fingerprint == w.trials[pid].cycle.reference.fingerprint
         && w.trials[pid].cycle.reference.fingerprint == stack[0].active.fingerprint
  }

  lemma OpenKeeps(hash: Hash, w: World, stack: seq<Record>, pid: nat, c: Cycle)
    requires Standing(hash, w, stack)
    ensures
      var (st, phase) := Open(w.store, c);
      Standing(hash, World(st, if phase.Testing? then w.trials[pid := UnderTest(c, phase.current)] else w.trials),
               if stack == [] && c.gateAccepted then [Record(c.reference, None, [])] else stack)
  {
    if c.gateAccepted {
      if stack == [] {
        FirstRecordIsAStack(hash, c.reference);
      } else {
        assert w.store.(lkg := w.store.lkg) == w.store;
      }
    }
  }

  /** A decision leaves the directory alone or pushes the candidate; it never raises. */
  lemma CloseMeans(hash: Hash, parse: Parse, w: World, stack: seq<Record>, pid: nat)
    requires Injective(hash) && Standing(hash, w, stack) && pid in w.trials
    ensures
      var c, current := w.trials[pid].cycle, w.trials[pid].current;
      var r := Close(hash, parse, w.store, c, current);
      && r.Ok? && (r.value.1 == PromotedNow <==> Promotes(parse, w, pid))
      && r.value.0 == (if Promotes(parse, w, pid) then Apply(hash, w.store, Push(Credited(parse, c))) else w.store)
  {
    var top := stack[|stack| - 1];
    if hash(top) in w.store.snapshots { assert w.store.snapshots[hash(top)] == top; }
  }

  lemma CloseKeeps(hash: Hash, parse: Parse, w: World, stack: seq<Record>, pid: nat)
    requires Injective(hash) && Standing(hash, w, stack) && pid in w.trials
    ensures Standing(hash, Step(hash, parse, w, CloseMove(pid)),
                     if Promotes(parse, w, pid)
                     then stack + [Linked(hash, w.trials[pid].current, Credited(parse, w.trials[pid].cycle))] else stack)
  {
    CloseMeans(hash, parse, w, stack, pid);
    if Promotes(parse, w, pid) { PushKeepsChain(hash, w.store, stack, Credited(parse, w.trials[pid].cycle)); }
  }

  lemma RollBackKeeps(hash: Hash, parse: Parse, w: World, stack: seq<Record>)
    requires Standing(hash, w, stack)
    ensures Standing(hash, Step(hash, parse, w, RollBackMove), if |stack| > 1 then stack[..|stack| - 1] else stack)
  {
    if stack != [] { PopKeepsChain(hash, w.store, stack); }
  }

  /**
   * Every interleaving of cycles and rollbacks from an empty directory: it holds exactly the chain of the first
   * accepted reference and the promotions still standing, and all of them carry that reference's fingerprint.
   */
  lemma {:induction false} RunsKeepTheChain(hash: Hash, parse: Parse, moves: seq<Move>)
    requires Injective(hash)
    ensures Standing(hash, After(hash, parse, moves), StackOf(hash, parse, moves))
  {
    if moves != [] {
      var before := moves[..|moves| - 1];
      var w, stack := After(hash, parse, before), StackOf(hash, parse, before);
      RunsKeepTheChain(hash, parse, before);
      match moves[|moves| - 1]
      case OpenMove(pid, c) => OpenKeeps(hash, w, stack, pid, c);
      case CloseMove(pid) => if pid in w.trials { CloseKeeps(hash, parse, w, stack, pid); }
      case RollBackMove => RollBackKeeps(hash, parse, w, stack);
    }
  }

  /**
   * At any point of any run, a cycle that decides never raises. It changes the directory only by promoting, over the
   * very record it was opened on; the candidate carries that record's fingerprint, and one rollback restores the record.
   */
  lemma OnlyPromotionChangesTheRecord(hash: Hash, parse: Parse, moves: seq<Move>, pid: nat)
    requires Injective(hash) && pid in After(hash, parse, moves).trials
    ensures
      var w := After(hash, parse, moves);
      var c, current := w.trials[pid].cycle, w.trials[pid].current;
      var r := Close(hash, parse, w.store, c, current);
      && r.Ok?
      && (r.value.1 == PromotedNow <==>
            w.store.lkg == Some(current) && Decide(parse, true, c.trial, c.allowPromotion) == PromotedNow)
      && (r.value.1 != PromotedNow ==> r.value.0 == w.store)
      && (r.value.1 == PromotedNow ==>
            && r.value.0.lkg == Some(Linked(hash, current, Credited(parse, c)))
            && Credited(parse, c).fingerprint == current.active.fingerprint
            && RolledBack(hash, r.value.0).Ok? && RolledBack(hash, r.value.0).value.lkg == w.store.lkg)
  {
    var w, stack := After(hash, parse, moves), StackOf(hash, parse, moves);
    RunsKeepTheChain(hash, parse, moves);
    CloseMeans(hash, parse, w, stack, pid);
    if Promotes(parse, w, pid) {
      var candidate := Credited(parse, w.trials[pid].cycle);
      var grown := StackOp(hash, stack, Push(candidate));
      PushKeepsChain(hash, w.store, stack, candidate);
      assert Link(hash, Apply(hash, w.store, Push(candidate)), grown[|stack| - 1], grown[|stack|]);
    }
  }

  /** A rollback goes back to the entry beneath, whenever there is one; the first record has nothing to go back to. */
  lemma RollBackRestoresTheLast(hash: Hash, parse: Parse, moves: seq<Move>)
    requires Injective(hash)
    ensures
      var st, stack := After(hash, parse, moves).store, StackOf(hash, parse, moves);
      if stack == [] then RolledBack(hash, st) == Err(NoLkg)
      else if |stack| == 1 then RolledBack(hash, st) == Err(NoRollbackTarget)
      else RolledBack(hash, st) == Ok(st.(lkg := Some(stack[|stack| - 2])))
  {
    var st, stack := After(hash, parse, moves).store, StackOf(hash, parse, moves);
    RunsKeepTheChain(hash, parse, moves);
    if |stack| > 1 { assert Link(hash, st, stack[|stack| - 2], stack[|stack| - 1]); }
  }
}
