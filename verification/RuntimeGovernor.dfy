/** The shadow governor: samples in, a ranked recommendation out, and the gate before any execution. */
module RuntimeGovernor {
  import opened Common
  import opened Sorting

  const MAX_WINDOW_SAMPLES := 64
  const MAX_POLICY_CANDIDATES := 8
  const AUTHORITY_SCOPE := "adaptive-runtime-policy"

  // ---- Samples --------------------------------------------------------------------------------

  /** A sample whose fields failed type checks keeps at most its id; the rest carry their readings. */
  datatype Sample =
    | Malformed(claimed: Option<string>)
    | Reading(id: string, temperature: real, memoryAvailable: nat, memoryTotal: nat, load: real, cpuCount: nat,
              throttled: bool, carrier: bool, operstate: string, driver: string, errors: nat, drops: nat)

  predicate WellMeasured(s: Sample) {
    && s.Reading? && s.temperature >= -40.0 && s.load >= 0.0 && s.cpuCount >= 1
    && s.memoryTotal >= 1 && s.memoryAvailable <= s.memoryTotal
  }

  function MemoryRatio(s: Sample): real
    requires WellMeasured(s)
  {
    s.memoryAvailable as real / s.memoryTotal as real
  }

  function NormalLoad(s: Sample): real
    requires WellMeasured(s)
  {
    s.load / s.cpuCount as real
  }

  /** `validate_runtime_sample` accepts: well measured and inside the shadow policy envelope. */
  predicate Safe(s: Sample, expectedDriver: string) {
    && WellMeasured(s)
    && s.temperature < 80.0 && !s.throttled && MemoryRatio(s) >= 0.08 && NormalLoad(s) <= 2.0
    && s.carrier && s.operstate == "up" && s.driver == expectedDriver && s.errors == 0 && s.drops == 0
  }

  function Decimal(n: nat): string {
    if n < 10 then ["0123456789"[n]] else Decimal(n / 10) + ["0123456789"[n % 10]]
  }

  function SampleId(s: Sample, index: nat): string {
    match s
    case Malformed(None) => "sample-" + Decimal(index)
    case Malformed(Some(id)) => id
    case Reading(id, _, _, _, _, _, _, _, _, _, _, _) => id
  }

  function SampleIds(samples: seq<Sample>): seq<string> {
    seq(|samples|, i requires 0 <= i < |samples| => SampleId(samples[i], i))
  }

  predicate AllSafe(samples: seq<Sample>, expectedDriver: string) {
    forall i :: 0 <= i < |samples| ==> Safe(samples[i], expectedDriver)
  }

  predicate WindowSound(samples: seq<Sample>) {
    |samples| <= MAX_WINDOW_SAMPLES && |SetOf(SampleIds(samples))| == |samples|
  }

  predicate Sufficient(samples: seq<Sample>, expectedDriver: string, minimum: nat) {
    AllSafe(samples, expectedDriver) && WindowSound(samples) && |samples| >= minimum
  }

  // ---- Aggregates -----------------------------------------------------------------------------

  function Greatest(s: seq<real>): real
    requires s != []
  {
    if |s| == 1 then s[0]
    else
      var rest := Greatest(s[1..]);
      if s[0] < rest then rest else s[0]
  }

  lemma {:induction false} GreatestIs(s: seq<real>)
    requires s != []
    ensures Greatest(s) in s && forall x :: x in s ==> x <= Greatest(s)
  {
    if |s| > 1 {
      GreatestIs(s[1..]);
      assert s == [s[0]] + s[1..];
    }
  }

  lemma GreatestForgetsOrder(a: seq<real>, b: seq<real>)
    requires a != [] && multiset(a) == multiset(b)
    ensures b != [] && Greatest(a) == Greatest(b)
  {
    assert |multiset(a)| == |multiset(b)|;
    GreatestIs(a);
    GreatestIs(b);
    assert Greatest(a) in multiset(b) && Greatest(b) in multiset(a);
    assert Greatest(a) in b && Greatest(b) in a;
    assert Greatest(a) <= Greatest(b) && Greatest(b) <= Greatest(a);
  }

  function Sum(s: seq<real>): real { if s == [] then 0.0 else s[0] + Sum(s[1..]) }

  lemma {:induction false} SumWithout(s: seq<real>, k: nat)
    requires k < |s|
    ensures Sum(s) == s[k] + Sum(Omit(s, k))
  {
    if k == 0 {
      assert Omit(s, 0) == s[1..];
    } else {
      SumWithout(s[1..], k - 1);
      assert Omit(s, k)[1..] == Omit(s[1..], k - 1) && Omit(s, k)[0] == s[0];
    }
  }

  lemma {:induction false} SumForgetsOrder(a: seq<real>, b: seq<real>)
    requires multiset(a) == multiset(b)
    ensures Sum(a) == Sum(b)
    decreases |a|
  {
    assert |multiset(a)| == |multiset(b)|;
    if a != [] {
      assert a[0] in multiset(b);
      var k :| 0 <= k < |b| && b[k] == a[0];
      OmitOne(a, 0);
      OmitOne(b, k);
      SumForgetsOrder(Omit(a, 0), Omit(b, k));
      SumWithout(a, 0);
      SumWithout(b, k);
    }
  }

  /** `round` to a whole number: halves go to the even neighbour. */
  function HalfEven(y: real): int {
    var below := y.Floor;
    var rest := y - below as real;
    if rest < 0.5 || (rest == 0.5 && below % 2 == 0) then below else below + 1
  }

  function RoundMilli(x: real): real { HalfEven(x * 1000.0) as real / 1000.0 }
  function RoundMicro(x: real): real { HalfEven(x * 1000000.0) as real / 1000000.0 }

  /** The readings of an accepted sample, as its receipt holds them. */
  function Temperature(s: Sample): real { if s.Reading? then RoundMilli(s.temperature) else 0.0 }
  function NegatedMemory(s: Sample): real { if WellMeasured(s) then -RoundMicro(MemoryRatio(s)) else 0.0 }
  function LoadOf(s: Sample): real { if WellMeasured(s) then RoundMicro(NormalLoad(s)) else 0.0 }

  /** The throttle flag, ethernet health and driver list of an accepted window are the same for all and left away. */
  datatype Aggregate = Aggregate(maxTemperature: real, averageTemperature: real, leastMemory: real, maxLoad: real)

  /** `_aggregate` of the accepted samples, rounded once more; the least memory ratio is the negated greatest negation. */
  function AggregateOf(samples: seq<Sample>): Aggregate
    requires samples != []
  {
    Aggregate(
      RoundMilli(Greatest(Map(samples, Temperature))),
      RoundMilli(Sum(Map(samples, Temperature)) / |samples| as real),
      RoundMicro(-Greatest(Map(samples, NegatedMemory))),
      RoundMicro(Greatest(Map(samples, LoadOf))))
  }

  /** Rounded values meet an even threshold exactly when the readings come within half a step of it. */
  lemma HalfEvenAtEven(y: real, k: int)
    requires k % 2 == 0
    ensures HalfEven(y) >= k <==> y >= k as real - 0.5
    ensures HalfEven(y) <= k <==> y <= k as real + 0.5
  {
    var below := y.Floor;
    assert below as real <= y < below as real + 1.0;
    assert below >= k <==> below as real >= k as real;
    assert below == k - 1 ==> below % 2 == 1;
  }

  lemma MilliAt(x: real, k: int)
    requires k % 2 == 0
    ensures RoundMilli(x) >= k as real / 1000.0 <==> x * 1000.0 >= k as real - 0.5
    ensures RoundMilli(x) <= k as real / 1000.0 <==> x * 1000.0 <= k as real + 0.5
    ensures RoundMilli(RoundMilli(x)) == RoundMilli(x)
  {
    HalfEvenAtEven(x * 1000.0, k);
    WholeStays(HalfEven(x * 1000.0));
  }

  lemma MicroAt(x: real, k: int)
    requires k % 2 == 0
    ensures RoundMicro(x) >= k as real / 1000000.0 <==> x * 1000000.0 >= k as real - 0.5
    ensures RoundMicro(x) <= k as real / 1000000.0 <==> x * 1000000.0 <= k as real + 0.5
    ensures RoundMicro(RoundMicro(x)) == RoundMicro(x) && RoundMicro(-RoundMicro(x)) == -RoundMicro(x)
  {
    HalfEvenAtEven(x * 1000000.0, k);
    WholeStays(HalfEven(x * 1000000.0));
    WholeStays(-HalfEven(x * 1000000.0));
  }

  lemma WholeStays(n: int)
    ensures HalfEven(n as real) == n
  {}

  lemma GreatestReaches(s: seq<real>, limit: real)
    requires s != []
    ensures Greatest(s) >= limit <==> exists i :: 0 <= i < |s| && s[i] >= limit
    ensures Greatest(s) <= limit <==> forall i :: 0 <= i < |s| ==> s[i] <= limit
    ensures exists i :: 0 <= i < |s| && s[i] == Greatest(s)
  {
    GreatestIs(s);
    var i :| 0 <= i < |s| && s[i] == Greatest(s);
    assert forall j :: 0 <= j < |s| ==> s[j] in s;
  }

  /** The greatest of one value of each sample, where the samples that come to the limit are known from another side. */
  lemma GreatestOver(samples: seq<Sample>, f: Sample -> real, limit: real, high: Sample -> bool, low: Sample -> bool)
    returns (i: nat)
    requires samples != []
    requires forall s :: s in samples ==> (f(s) >= limit <==> high(s)) && (f(s) <= limit <==> low(s))
    ensures i < |samples| && Greatest(Map(samples, f)) == f(samples[i])
    ensures Greatest(Map(samples, f)) >= limit <==> exists j :: 0 <= j < |samples| && high(samples[j])
    ensures Greatest(Map(samples, f)) <= limit <==> forall j :: 0 <= j < |samples| ==> low(samples[j])
  {
    var all := Map(samples, f);
    GreatestReaches(all, limit);
    i :| 0 <= i < |all| && all[i] == Greatest(all);
    forall j | 0 <= j < |samples|
      ensures all[j] >= limit <==> high(samples[j])
      ensures all[j] <= limit <==> low(samples[j])
    {
      assert samples[j] in samples;
    }
  }

  predicate HotAt(s: Sample, k: int) { s.Reading? && s.temperature * 1000.0 >= k as real - 0.5 }
  predicate CoolAt(s: Sample, k: int) { s.Reading? && s.temperature * 1000.0 <= k as real + 0.5 }
  predicate ScarceAt(s: Sample, k: int) { WellMeasured(s) && MemoryRatio(s) * 1000000.0 <= k as real + 0.5 }
  predicate AmpleAt(s: Sample, k: int) { WellMeasured(s) && MemoryRatio(s) * 1000000.0 >= k as real - 0.5 }
  predicate BusyAt(s: Sample, k: int) { WellMeasured(s) && NormalLoad(s) * 1000000.0 >= k as real - 0.5 }
  predicate IdleAt(s: Sample, k: int) { WellMeasured(s) && NormalLoad(s) * 1000000.0 <= k as real + 0.5 }

  lemma ReadingAt(s: Sample, t: int, m: int, l: int)
    requires WellMeasured(s) && t % 2 == 0 && m % 2 == 0 && l % 2 == 0
    ensures Temperature(s) >= t as real / 1000.0 <==> HotAt(s, t)
    ensures Temperature(s) <= t as real / 1000.0 <==> CoolAt(s, t)
    ensures NegatedMemory(s) >= -(m as real / 1000000.0) <==> ScarceAt(s, m)
    ensures NegatedMemory(s) <= -(m as real / 1000000.0) <==> AmpleAt(s, m)
    ensures LoadOf(s) >= l as real / 1000000.0 <==> BusyAt(s, l)
    ensures LoadOf(s) <= l as real / 1000000.0 <==> IdleAt(s, l)
    ensures RoundMilli(Temperature(s)) == Temperature(s)
    ensures RoundMicro(-NegatedMemory(s)) == -NegatedMemory(s) && RoundMicro(LoadOf(s)) == LoadOf(s)
  {
    MilliAt(s.temperature, t);
    MicroAt(MemoryRatio(s), m);
    MicroAt(NormalLoad(s), l);
  }

  /** Which of the samples' own readings the three aggregates used for scoring stand for. */
  lemma AggregateAt(samples: seq<Sample>, expectedDriver: string, t: int, m: int, l: int)
    requires samples != [] && AllSafe(samples, expectedDriver) && t % 2 == 0 && m % 2 == 0 && l % 2 == 0
    ensures
      var g := AggregateOf(samples);
      && (g.maxTemperature >= t as real / 1000.0 <==> exists i :: 0 <= i < |samples| && HotAt(samples[i], t))
      && (g.maxTemperature <= t as real / 1000.0 <==> forall i :: 0 <= i < |samples| ==> CoolAt(samples[i], t))
      && (g.leastMemory <= m as real / 1000000.0 <==> exists i :: 0 <= i < |samples| && ScarceAt(samples[i], m))
      && (g.leastMemory >= m as real / 1000000.0 <==> forall i :: 0 <= i < |samples| ==> AmpleAt(samples[i], m))
      && (g.maxLoad >= l as real / 1000000.0 <==> exists i :: 0 <= i < |samples| && BusyAt(samples[i], l))
      && (g.maxLoad <= l as real / 1000000.0 <==> forall i :: 0 <= i < |samples| ==> IdleAt(samples[i], l))
  {
    forall s | s in samples
      ensures Temperature(s) >= t as real / 1000.0 <==> HotAt(s, t)
      ensures Temperature(s) <= t as real / 1000.0 <==> CoolAt(s, t)
      ensures NegatedMemory(s) >= -(m as real / 1000000.0) <==> ScarceAt(s, m)
      ensures NegatedMemory(s) <= -(m as real / 1000000.0) <==> AmpleAt(s, m)
      ensures LoadOf(s) >= l as real / 1000000.0 <==> BusyAt(s, l)
      ensures LoadOf(s) <= l as real / 1000000.0 <==> IdleAt(s, l)
    {
      ReadingAt(s, t, m, l);
    }
    var i := GreatestOver(samples, Temperature, t as real / 1000.0, s => HotAt(s, t), s => CoolAt(s, t));
    var j := GreatestOver(samples, NegatedMemory, -(m as real / 1000000.0), s => ScarceAt(s, m), s => AmpleAt(s, m));
    var k := GreatestOver(samples, LoadOf, l as real / 1000000.0, s => BusyAt(s, l), s => IdleAt(s, l));
    ReadingAt(samples[i], t, m, l);
    ReadingAt(samples[j], t, m, l);
    ReadingAt(samples[k], t, m, l);
  }

  // ---- Policies -------------------------------------------------------------------------------

  datatype Strategy = Baseline | Conserve | Balanced | Opportunistic

  datatype Policy = Policy(
    id: string, generation: nat, strategy: Strategy, cpuPercent: Option<int>, memoryPercent: Option<int>, prefetch: bool)

  predicate BoundedPolicy(p: Policy) {
    if p.strategy == Baseline then p.generation == 0 && p.cpuPercent.None? && p.memoryPercent.None?
    else p.generation in {2, 3}
         && p.cpuPercent.Some? && 0 <= p.cpuPercent.value <= 50
         && p.memoryPercent.Some? && 0 <= p.memoryPercent.value <= 35
  }

  ghost predicate UniqueIds(policies: seq<Policy>) {
    forall a, b :: a in policies && b in policies && a.id == b.id ==> a == b
  }

  /** `_validate_policies`. */
  ghost predicate ValidCatalog(policies: seq<Policy>, baselineId: string) {
    && 1 <= |policies| <= MAX_POLICY_CANDIDATES
    && Distinct(policies) && UniqueIds(policies)
    && (forall p :: p in policies ==> BoundedPolicy(p))
    && exists p :: p in policies && p.id == baselineId && p.strategy == Baseline
  }

  predicate Pressed(g: Aggregate) { g.maxTemperature >= 70.0 || g.leastMemory <= 0.20 || g.maxLoad >= 0.85 }

  /** Ethernet health needs no field of its own: an accepted sample has it. */
  predicate Relaxed(g: Aggregate, temperature: real, memory: real, load: real) {
    g.maxTemperature <= temperature && g.leastMemory >= memory && g.maxLoad <= load
  }

  /** `_score_policy`, in hundredths. */
  function ScoreOf(p: Policy, g: Option<Aggregate>): nat {
    match p.strategy
    case Baseline => 80
    case Conserve => if g.None? then 0 else if Pressed(g.value) then 88 else 45
    case Balanced => if g.None? then 0 else if Relaxed(g.value, 65.0, 0.30, 0.65) then 84 else 55
    case Opportunistic => if g.None? then 0 else if Relaxed(g.value, 60.0, 0.45, 0.40) then 90 else 40
  }

  /** Pressure and headroom exclude each other, so conserving and opportunism are never both eligible. */
  lemma PressureExcludesHeadroom(g: Aggregate)
    ensures !(Pressed(g) && Relaxed(g, 65.0, 0.30, 0.65)) && !(Pressed(g) && Relaxed(g, 60.0, 0.45, 0.40))
  {}

  /** Pressure in terms of the readings: rounding moves each threshold by half a step, towards pressure. */
  lemma PressedIff(samples: seq<Sample>, expectedDriver: string)
    requires samples != [] && AllSafe(samples, expectedDriver)
    ensures Pressed(AggregateOf(samples))
            <==> exists i :: 0 <= i < |samples| && (
                   samples[i].temperature >= 69.9995 || MemoryRatio(samples[i]) <= 0.2000005
                   || NormalLoad(samples[i]) >= 0.8499995)
  {
    AggregateAt(samples, expectedDriver, 70000, 200000, 850000);
  }

  /** Headroom in terms of the readings: here rounding moves each threshold towards headroom. */
  lemma RelaxedIff(samples: seq<Sample>, expectedDriver: string)
    requires samples != [] && AllSafe(samples, expectedDriver)
    ensures Relaxed(AggregateOf(samples), 65.0, 0.30, 0.65)
            <==> forall i :: 0 <= i < |samples| ==>
                   samples[i].temperature <= 65.0005 && MemoryRatio(samples[i]) >= 0.2999995
                   && NormalLoad(samples[i]) <= 0.6500005
    ensures Relaxed(AggregateOf(samples), 60.0, 0.45, 0.40)
            <==> forall i :: 0 <= i < |samples| ==>
                   samples[i].temperature <= 60.0005 && MemoryRatio(samples[i]) >= 0.4499995
                   && NormalLoad(samples[i]) <= 0.4000005
  {
    AggregateAt(samples, expectedDriver, 65000, 300000, 650000);
    AggregateAt(samples, expectedDriver, 60000, 450000, 400000);
  }

  datatype Entry = Entry(policy: Policy, score: nat)

  /** The sort key: score downwards, baselines first among equals, then the id. */
  predicate RankLe(a: Entry, b: Entry) {
    || a.score > b.score
    || (a.score == b.score && a.policy.strategy == Baseline && b.policy.strategy != Baseline)
    || (a.score == b.score && (a.policy.strategy == Baseline <==> b.policy.strategy == Baseline)
        && LexLe(a.policy.id, b.policy.id))
  }

  ghost predicate IdsIdentify(entries: seq<Entry>) {
    forall a, b :: a in entries && b in entries && a.policy.id == b.policy.id ==> a == b
  }

  lemma RankLeRanks(entries: seq<Entry>)
    requires IdsIdentify(entries)
    ensures Ranks(RankLe) && NoTies(entries, RankLe)
  {
    LexRanks([]);
    forall a: Entry, b: Entry
      ensures RankLe(a, b) || RankLe(b, a)
      ensures RankLe(a, b) && RankLe(b, a) ==> a.policy.id == b.policy.id
    {
      LexTotal(a.policy.id, b.policy.id);
    }
  }

  function EntryFor(g: Option<Aggregate>): Policy -> Entry {
    (p: Policy) => Entry(p, ScoreOf(p, g))
  }

  function Ranking(policies: seq<Policy>, g: Option<Aggregate>): seq<Entry> {
    Sort(Map(policies, EntryFor(g)), RankLe)
  }

  // ---- The decision ---------------------------------------------------------------------------

  datatype DecisionState = Quarantined | InsufficientEvidence | BaselineFirst | CandidateFirst

  datatype Outcome = Outcome(ranking: seq<Entry>, state: DecisionState, selected: string, shadowChange: bool)

  function WindowAggregate(samples: seq<Sample>, expectedDriver: string, minimum: nat): Option<Aggregate> {
    if Sufficient(samples, expectedDriver, minimum) && samples != [] then Some(AggregateOf(samples)) else None
  }

  /** `evaluate_shadow_window` on validated arguments. */
  function Evaluate(samples: seq<Sample>, policies: seq<Policy>, baselineId: string, minimum: nat, expectedDriver: string): Outcome
    requires policies != []
  {
    var ranking := Ranking(policies, WindowAggregate(samples, expectedDriver, minimum));
    SortPermutes(Map(policies, EntryFor(WindowAggregate(samples, expectedDriver, minimum))), RankLe);
    if !AllSafe(samples, expectedDriver) || !WindowSound(samples) then Outcome(ranking, Quarantined, baselineId, false)
    else if |samples| < minimum then Outcome(ranking, InsufficientEvidence, baselineId, false)
    else if ranking[0].policy.id == baselineId then Outcome(ranking, BaselineFirst, baselineId, false)
    else Outcome(ranking, CandidateFirst, ranking[0].policy.id, true)
  }

  lemma RearrangedSamples(a: seq<Sample>, b: seq<Sample>)
    requires multiset(a) == multiset(b)
    ensures |a| == |b| && forall s :: s in a <==> s in b
  {
    assert |multiset(a)| == |multiset(b)|;
    forall s
      ensures s in a <==> s in b
    {
      assert s in multiset(a) <==> s in multiset(b);
    }
  }

  lemma RearrangedSafety(a: seq<Sample>, b: seq<Sample>, expectedDriver: string)
    requires multiset(a) == multiset(b) && AllSafe(a, expectedDriver)
    ensures AllSafe(b, expectedDriver) && |SetOf(SampleIds(a))| == |SetOf(SampleIds(b))|
  {
    RearrangedSamples(a, b);
    forall i | 0 <= i < |b|
      ensures Safe(b[i], expectedDriver)
    {
      assert b[i] in a;
    }
    IdsOf(a, b, expectedDriver);
    IdsOf(b, a, expectedDriver);
    assert SetOf(SampleIds(a)) == SetOf(SampleIds(b));
  }

  lemma IdsOf(a: seq<Sample>, b: seq<Sample>, expectedDriver: string)
    requires AllSafe(a, expectedDriver) && AllSafe(b, expectedDriver) && forall s :: s in a <==> s in b
    ensures forall id :: id in SampleIds(a) ==> id in SampleIds(b)
  {
    forall id | id in SampleIds(a)
      ensures id in SampleIds(b)
    {
      var i :| 0 <= i < |a| && SampleIds(a)[i] == id;
      assert a[i] in b;
      var j :| 0 <= j < |b| && b[j] == a[i];
      assert SampleIds(b)[j] == id;
    }
  }

  lemma RearrangedAggregate(a: seq<Sample>, b: seq<Sample>, expectedDriver: string, minimum: nat)
    requires multiset(a) == multiset(b)
    ensures AllSafe(a, expectedDriver) == AllSafe(b, expectedDriver) && |a| == |b|
    ensures AllSafe(a, expectedDriver) ==> WindowSound(a) == WindowSound(b)
    ensures WindowAggregate(a, expectedDriver, minimum) == WindowAggregate(b, expectedDriver, minimum)
  {
    RearrangedSamples(a, b);
    if AllSafe(a, expectedDriver) { RearrangedSafety(a, b, expectedDriver); }
    if AllSafe(b, expectedDriver) { RearrangedSafety(b, a, expectedDriver); }
    if Sufficient(a, expectedDriver, minimum) && a != [] {
      MapPermutes(a, b, Temperature);
      MapPermutes(a, b, NegatedMemory);
      MapPermutes(a, b, LoadOf);
      GreatestForgetsOrder(Map(a, Temperature), Map(b, Temperature));
      SumForgetsOrder(Map(a, Temperature), Map(b, Temperature));
      GreatestForgetsOrder(Map(a, NegatedMemory), Map(b, NegatedMemory));
      GreatestForgetsOrder(Map(a, LoadOf), Map(b, LoadOf));
    }
  }

  /** Neither the order of the samples nor that of the catalog reaches the outcome or the ranking. */
  lemma OrderIsIrrelevant(
    a: seq<Sample>, b: seq<Sample>, p: seq<Policy>, q: seq<Policy>, baselineId: string, minimum: nat, expectedDriver: string)
    requires multiset(a) == multiset(b) && multiset(p) == multiset(q) && p != [] && UniqueIds(p)
    ensures q != [] && Evaluate(a, p, baselineId, minimum, expectedDriver) == Evaluate(b, q, baselineId, minimum, expectedDriver)
  {
    assert |multiset(p)| == |multiset(q)|;
    RearrangedAggregate(a, b, expectedDriver, minimum);
    var g := WindowAggregate(a, expectedDriver, minimum);
    MapPermutes(p, q, EntryFor(g));
    RankLeRanks(Map(p, EntryFor(g)));
    SortForgetsOrder(Map(p, EntryFor(g)), Map(q, EntryFor(g)), RankLe);
  }

  /** The ranking is a rearrangement of the scored catalog in which every place is strictly earned. */
  lemma RankingIsStrict(policies: seq<Policy>, g: Option<Aggregate>)
    requires Distinct(policies) && UniqueIds(policies)
    ensures multiset(Ranking(policies, g)) == multiset(Map(policies, EntryFor(g)))
    ensures |Ranking(policies, g)| == |policies|
    ensures SortedBy(Ranking(policies, g), RankLe)
    ensures forall a, b :: a in Ranking(policies, g) && b in Ranking(policies, g) && a != b ==>
              (RankLe(a, b) <==> !RankLe(b, a))
  {
    var entries := Map(policies, EntryFor(g));
    RankLeRanks(entries);
    SortPermutes(entries, RankLe);
    SortSorts(entries, RankLe);
    forall a, b | a in Ranking(policies, g) && b in Ranking(policies, g) && a != b
      ensures RankLe(a, b) <==> !RankLe(b, a)
    {
      assert a in multiset(entries) && b in multiset(entries);
    }
  }

  /** Anything but a fully safe, sound and large enough window keeps the baseline. */
  lemma FailsClosed(samples: seq<Sample>, policies: seq<Policy>, baselineId: string, minimum: nat, expectedDriver: string)
    requires policies != []
    ensures
      var o := Evaluate(samples, policies, baselineId, minimum, expectedDriver);
      (o.shadowChange ==> Sufficient(samples, expectedDriver, minimum))
      && (!o.shadowChange ==> o.selected == baselineId)
      && (o.state == Quarantined <==> !AllSafe(samples, expectedDriver) || !WindowSound(samples))
  {}

  ghost predicate Beats(p: Policy, baselineId: string, g: Option<Aggregate>) {
    ScoreOf(p, g) > 80 || (p.strategy == Baseline && LexLe(p.id, baselineId) && p.id != baselineId)
  }

  /**
   * Exactly when a change is recommended: the evidence suffices and some policy scores above the baseline's
   * 0.80, or is a second baseline with an earlier id.
   */
  lemma ChangeRecommendedIff(samples: seq<Sample>, policies: seq<Policy>, baselineId: string, minimum: nat, expectedDriver: string)
    requires ValidCatalog(policies, baselineId)
    ensures
      Evaluate(samples, policies, baselineId, minimum, expectedDriver).shadowChange
      <==> Sufficient(samples, expectedDriver, minimum)
           && exists p :: p in policies && Beats(p, baselineId, WindowAggregate(samples, expectedDriver, minimum))
  {
    var g := WindowAggregate(samples, expectedDriver, minimum);
    RankingIsStrict(policies, g);
    WinnerBeats(policies, baselineId, g);
    if p :| p in policies && Beats(p, baselineId, g) {
      MemberRanked(policies, g, p);
      TopPrecedes(Ranking(policies, g), EntryFor(g)(p));
      var base :| base in policies && base.id == baselineId && base.strategy == Baseline;
      var top := Ranking(policies, g)[0];
      var q := Ranked(policies, g, top);
      LexTotal(p.id, baselineId);
    }
  }

  /** Two baselines, the later id protected: three safe samples recommend replacing it by the earlier, at equal score. */
  lemma SecondBaselineWins(first: Policy, protected: Policy, s: Sample, samples: seq<Sample>)
    requires first == Policy("a", 0, Baseline, None, None, false) && protected == Policy("b", 0, Baseline, None, None, false)
    requires s == Reading("x", 50.0, 1, 2, 0.5, 1, false, true, "up", "smsc95xx", 0, 0)
    requires samples == [s, s.(id := "y"), s.(id := "z")]
    ensures ValidCatalog([first, protected], "b")
    ensures
      var o := Evaluate(samples, [first, protected], "b", 3, "smsc95xx");
      o.shadowChange && o.selected == "a"
  {
    var policies := [first, protected];
    var g := WindowAggregate(samples, "smsc95xx", 3);
    assert policies[0] == first && policies[1] == protected && "a" != "b";
    assert SampleIds(samples) == ["x", "y", "z"];
    ThreeIds();
    assert LexLe("a", "b");
    assert Beats(first, "b", g);
    ChangeRecommendedIff(samples, policies, "b", 3, "smsc95xx");
    WinnerBeats(policies, "b", g);
  }

  /** A memory ratio just above 0.20 counts as 0.20: three such samples recommend conserving. */
  lemma RoundingTipsTheScale(baseline: Policy, conserve: Policy, s: Sample, samples: seq<Sample>)
    requires baseline == Policy("a", 0, Baseline, None, None, false)
    requires conserve == Policy("b", 2, Conserve, Some(10), Some(10), false)
    requires s == Reading("x", 66.0, 2000004, 10000000, 0.5, 1, false, true, "up", "smsc95xx", 0, 0)
    requires samples == [s, s.(id := "y"), s.(id := "z")]
    ensures MemoryRatio(s) > 0.20 && ValidCatalog([baseline, conserve], "a")
    ensures
      var o := Evaluate(samples, [baseline, conserve], "a", 3, "smsc95xx");
      o.shadowChange && o.selected == "b"
  {
    var policies := [baseline, conserve];
    var g := WindowAggregate(samples, "smsc95xx", 3);
    assert policies[0] == baseline && policies[1] == conserve && "a" != "b";
    assert SampleIds(samples) == ["x", "y", "z"];
    ThreeIds();
    assert MemoryRatio(samples[0]) == 0.2000004;
    PressedIff(samples, "smsc95xx");
    assert Beats(conserve, "a", g);
    ChangeRecommendedIff(samples, policies, "a", 3, "smsc95xx");
    WinnerBeats(policies, "a", g);
  }

  lemma ThreeIds()
    ensures |SetOf(["x", "y", "z"])| == 3
  {
    assert "x" != "y" && "x" != "z" && "y" != "z";
    assert SetOf(["x", "y", "z"]) == {"x", "y", "z"};
  }

  /** Whatever is ranked first is the baseline or beats it. */
  lemma WinnerBeats(policies: seq<Policy>, baselineId: string, g: Option<Aggregate>)
    requires ValidCatalog(policies, baselineId)
    ensures Ranking(policies, g) != []
    ensures
      var top := Ranking(policies, g)[0].policy;
      top in policies && (top.id != baselineId ==> Beats(top, baselineId, g))
  {
    RankingIsStrict(policies, g);
    var base :| base in policies && base.id == baselineId && base.strategy == Baseline;
    MemberRanked(policies, g, base);
    TopPrecedes(Ranking(policies, g), EntryFor(g)(base));
    var q := Ranked(policies, g, Ranking(policies, g)[0]);
  }

  /** The policy behind a ranked entry. */
  lemma Ranked(policies: seq<Policy>, g: Option<Aggregate>, e: Entry) returns (p: Policy)
    requires multiset(Ranking(policies, g)) == multiset(Map(policies, EntryFor(g))) && e in Ranking(policies, g)
    ensures p in policies && e == Entry(p, ScoreOf(p, g))
  {
    assert e in multiset(Ranking(policies, g));
    assert e in multiset(Map(policies, EntryFor(g)));
    var k :| 0 <= k < |policies| && Map(policies, EntryFor(g))[k] == e;
    p := policies[k];
  }

  lemma MemberRanked(policies: seq<Policy>, g: Option<Aggregate>, p: Policy)
    requires p in policies && multiset(Ranking(policies, g)) == multiset(Map(policies, EntryFor(g)))
    ensures EntryFor(g)(p) in Ranking(policies, g)
  {
    var i :| 0 <= i < |policies| && policies[i] == p;
    assert Map(policies, EntryFor(g))[i] == EntryFor(g)(p);
    assert EntryFor(g)(p) in multiset(Map(policies, EntryFor(g)));
    assert EntryFor(g)(p) in multiset(Ranking(policies, g));
  }

  lemma TopPrecedes(ranking: seq<Entry>, e: Entry)
    requires SortedBy(ranking, RankLe) && e in ranking
    ensures RankLe(ranking[0], e)
  {
    LexTotal(e.policy.id, e.policy.id);
    var i :| 0 <= i < |ranking| && ranking[i] == e;
  }

  // ---- Execution ------------------------------------------------------------------------------

  /** What is sealed: the window with the arguments it was judged under, and the outcome. */
  datatype Body = Body(samples: seq<Sample>, expectedDriver: string, baselineId: string, minimum: nat, outcome: Outcome)

  datatype Receipt<D> = Receipt(schemaMatches: bool, body: Body, seal: D)

  function BodyOf(samples: seq<Sample>, policies: seq<Policy>, baselineId: string, minimum: nat, expectedDriver: string): Body
    requires policies != []
  {
    Body(samples, expectedDriver, baselineId, minimum, Evaluate(samples, policies, baselineId, minimum, expectedDriver))
  }

  datatype Authority<D> = Authority(
    reference: bool, authorized: bool, scope: string, reversible: bool, receiptDigest: D,
    rollbackTarget: string, rollbackDigestValid: bool)

  predicate AuthoritySound<D(==)>(a: Authority<D>, seal: D) {
    && a.authorized && a.scope == AUTHORITY_SCOPE && a.reversible && a.reference
    && a.receiptDigest == seal && a.rollbackTarget != "" && a.rollbackDigestValid
  }

  datatype ExecutorResult = RaisedException | Returned(applied: bool, rollbackArmed: bool, target: string)

  datatype Execution =
    | InvalidReceipt | NoChange | ExecutorDisabled | AuthorityInvalid | ExecutorMissing | PolicyMissing
    | ExecutorFailed | NotProvenReversible | Executed(policy: string)

  /** `execute_runtime_recommendation`; `executor` is what the injected executor would do. */
  function Execute<D(==)>(
    hash: Body -> D, r: Receipt<D>, active: bool, authority: Option<Authority<D>>, executor: Option<ExecutorResult>): Execution
  {
    var o := r.body.outcome;
    if !r.schemaMatches || r.seal != hash(r.body) then InvalidReceipt
    else if !o.shadowChange then NoChange
    else if !active then ExecutorDisabled
    else if authority.None? || !AuthoritySound(authority.value, r.seal) then AuthorityInvalid
    else if executor.None? then ExecutorMissing
    else if !exists i :: 0 <= i < |o.ranking| && o.ranking[i].policy.id == o.selected then PolicyMissing
    else
      match executor.value
      case RaisedException => ExecutorFailed
      case Returned(applied, armed, target) =>
        if applied && armed && target == authority.value.rollbackTarget then Executed(o.selected) else NotProvenReversible
  }

  /**
   * What stands behind an execution on the evaluator's own receipt: an all-safe window of at least the
   * minimum size, and a policy of the catalog that beat the baseline.
   */
  lemma ExecutedMeans<D>(
    hash: Body -> D, samples: seq<Sample>, policies: seq<Policy>, baselineId: string, minimum: nat,
    expectedDriver: string, r: Receipt<D>, active: bool, authority: Option<Authority<D>>, executor: Option<ExecutorResult>)
    requires ValidCatalog(policies, baselineId)
    requires r.body == BodyOf(samples, policies, baselineId, minimum, expectedDriver)
    requires Execute(hash, r, active, authority, executor).Executed?
    ensures active && authority.Some? && AuthoritySound(authority.value, hash(r.body)) && executor.Some?
    ensures |samples| >= minimum && AllSafe(samples, expectedDriver) && WindowSound(samples)
    ensures exists p :: p in policies && p.id == Execute(hash, r, active, authority, executor).policy
                        && Beats(p, baselineId, WindowAggregate(samples, expectedDriver, minimum))
  {
    WinnerBeats(policies, baselineId, WindowAggregate(samples, expectedDriver, minimum));
  }

  lemma RankingKnowsCatalog(p: seq<Policy>, q: seq<Policy>, g: Option<Aggregate>, h: Option<Aggregate>)
    requires Ranking(p, g) == Ranking(q, h)
    ensures multiset(p) == multiset(q)
  {
    CatalogOf(p, g);
    CatalogOf(q, h);
  }

  lemma CatalogOf(p: seq<Policy>, g: Option<Aggregate>)
    ensures multiset(Map(Ranking(p, g), (e: Entry) => e.policy)) == multiset(p)
  {
    var entries := Map(p, EntryFor(g));
    SortPermutes(entries, RankLe);
    MapPermutes(Ranking(p, g), entries, (e: Entry) => e.policy);
    assert Map(entries, (e: Entry) => e.policy) == p;
  }

  /**
   * Authority is bound to one evaluation, as far as digests do not collide. If it executes the receipt of one
   * window and also names the digest of another's, the two are the same: samples, minimum, driver, baseline, catalog.
   */
  lemma AuthorityFitsOneWindow<D>(
    hash: Body -> D, a: seq<Sample>, p: seq<Policy>, baselineA: string, minimumA: nat, driverA: string,
    b: seq<Sample>, q: seq<Policy>, baselineB: string, minimumB: nat, driverB: string,
    r: Receipt<D>, active: bool, authority: Option<Authority<D>>, executor: Option<ExecutorResult>)
    requires forall x, y :: hash(x) == hash(y) ==> x == y
    requires p != [] && q != [] && r.body == BodyOf(a, p, baselineA, minimumA, driverA)
    requires Execute(hash, r, active, authority, executor).Executed?
    requires authority.value.receiptDigest == hash(BodyOf(b, q, baselineB, minimumB, driverB))
    ensures a == b && baselineA == baselineB && minimumA == minimumB && driverA == driverB
    ensures multiset(p) == multiset(q)
  {
    assert BodyOf(a, p, baselineA, minimumA, driverA) == BodyOf(b, q, baselineB, minimumB, driverB);
    RankingKnowsCatalog(p, q, WindowAggregate(a, driverA, minimumA), WindowAggregate(b, driverB, minimumB));
  }
}
