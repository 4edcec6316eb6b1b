/** The smsc95xx interrupt decoder: the list-driven Python model and the mask-driven generated C. */
module InterruptDecoder {
  import opened Common

  /**
   * A 32-bit register value, as the set of its set bit positions: `&` is intersection, `|` is union,
   * `~w` is the complement within the thirty-two positions, and a word is non-zero when it is not empty.
   */
  type Bit = n: nat | n < 32
  type Word = set<Bit>

  predicate IsPosition(b: nat) { b < 32 }

  function Not(w: Word): Word { (set b: Bit | 0 <= b < 32 && IsPosition(b)) - w }

  datatype Clearing = WriteOneClear | ReadOnlySource

  datatype Source = Source(name: string, statusMask: Word, endpointMask: Word, clearing: Clearing)

  predicate Hits(word: Word, mask: Word) { word * mask != {} }

  predicate IsActive(s: Source, status: Word) { Hits(status, s.statusMask) }

  predicate IsReportable(s: Source, status: Word, endpoint: Word) {
    IsActive(s, status) && Hits(endpoint, s.endpointMask)
  }

  predicate IsReadOnly(s: Source, status: Word) { IsActive(s, status) && s.clearing == ReadOnlySource }

  // ---- Lists of names and unions of masks -----------------------------------------------------

  datatype Test = ActiveIn(status: Word) | ReportableIn(status: Word, endpoint: Word) | ReadOnlyIn(status: Word) | HitBy(word: Word)

  predicate Passes(s: Source, t: Test) {
    match t
    case ActiveIn(status) => IsActive(s, status)
    case ReportableIn(status, endpoint) => IsReportable(s, status, endpoint)
    case ReadOnlyIn(status) => IsReadOnly(s, status)
    case HitBy(word) => Hits(word, s.statusMask)
  }

  /** The names of the sources that pass, in listing order. */
  function NamesOf(sources: seq<Source>, t: Test): seq<string> {
    if sources == [] then []
    else
      var last := sources[|sources| - 1];
      NamesOf(sources[..|sources| - 1], t) + if Passes(last, t) then [last.name] else []
  }

  /** Which bits of a source go into a union. */
  datatype Pick = StatusBits | EndpointBits | ClearBits | HeldBits | ReportBits(status: Word, endpoint: Word)

  function Part(s: Source, p: Pick): Word {
    match p
    case StatusBits => s.statusMask
    case EndpointBits => s.endpointMask
    case ClearBits => if s.clearing == WriteOneClear then s.statusMask else {}
    case HeldBits => if s.clearing == ReadOnlySource then s.statusMask else {}
    case ReportBits(status, endpoint) => if IsReportable(s, status, endpoint) then s.statusMask else {}
  }

  function UnionOf(sources: seq<Source>, p: Pick): Word {
    if sources == [] then {} else UnionOf(sources[..|sources| - 1], p) + Part(sources[|sources| - 1], p)
  }

  lemma Grows(sources: seq<Source>, n: nat, p: Pick, t: Test)
    requires n < |sources|
    ensures UnionOf(sources[..n + 1], p) == UnionOf(sources[..n], p) + Part(sources[n], p)
    ensures NamesOf(sources[..n + 1], t)
            == NamesOf(sources[..n], t) + if Passes(sources[n], t) then [sources[n].name] else []
  {
    assert sources[..n + 1][..n] == sources[..n];
  }

  lemma {:induction false} InUnion(sources: seq<Source>, p: Pick, b: Bit)
    ensures b in UnionOf(sources, p) <==> exists i :: 0 <= i < |sources| && b in Part(sources[i], p)
  {
    if sources != [] {
      var n := |sources| - 1;
      InUnion(sources[..n], p, b);
      if b in UnionOf(sources[..n], p) {
        var i :| 0 <= i < n && b in Part(sources[..n][i], p);
        assert b in Part(sources[i], p);
      }
      if i :| 0 <= i < n && b in Part(sources[i], p) {
        assert b in Part(sources[..n][i], p);
      }
    }
  }

  // ---- The Python reference -------------------------------------------------------------------

  datatype Decode = Decode(
    active: seq<string>, reportable: seq<string>, readOnly: seq<string>,
    ackMask: Word, unknownStatus: Word, unknownEndpoint: Word)

  /** `decode_interrupts` on 32-bit register values. */
  method DecodeInterrupts(sources: seq<Source>, status: Word, endpoint: Word) returns (d: Decode)
    ensures d.active == NamesOf(sources, ActiveIn(status))
    ensures d.reportable == NamesOf(sources, ReportableIn(status, endpoint))
    ensures d.readOnly == NamesOf(sources, ReadOnlyIn(status))
    ensures d.ackMask == status * UnionOf(sources, ClearBits)
    ensures d.unknownStatus == status * Not(UnionOf(sources, StatusBits))
    ensures d.unknownEndpoint == endpoint * Not(UnionOf(sources, EndpointBits))
  {
    var active: seq<string>, reportable: seq<string>, readOnly: seq<string> := [], [], [];
    var ackMask: Word, knownStatus: Word, knownEndpoint: Word := {}, {}, {};
    var n := 0;
    while n < |sources|
      invariant 0 <= n <= |sources|
      invariant active == NamesOf(sources[..n], ActiveIn(status))
      invariant reportable == NamesOf(sources[..n], ReportableIn(status, endpoint))
      invariant readOnly == NamesOf(sources[..n], ReadOnlyIn(status))
      invariant ackMask == status * UnionOf(sources[..n], ClearBits)
      invariant knownStatus == UnionOf(sources[..n], StatusBits)
      invariant knownEndpoint == UnionOf(sources[..n], EndpointBits)
    {
      var item := sources[n];
      Grows(sources, n, ClearBits, ActiveIn(status));
      Grows(sources, n, StatusBits, ReportableIn(status, endpoint));
      Grows(sources, n, EndpointBits, ReadOnlyIn(status));
      Distribute(status, UnionOf(sources[..n], ClearBits), Part(item, ClearBits));
      knownStatus := knownStatus + item.statusMask;
      knownEndpoint := knownEndpoint + item.endpointMask;
      if status * item.statusMask != {} {
        active := active + [item.name];
        if endpoint * item.endpointMask != {} {
          reportable := reportable + [item.name];
        }
        if item.clearing == WriteOneClear {
          ackMask := ackMask + (status * item.statusMask);
        } else {
          readOnly := readOnly + [item.name];
        }
      }
      n := n + 1;
    }
    assert sources[..n] == sources;
    d := Decode(active, reportable, readOnly, ackMask, status * Not(knownStatus), endpoint * Not(knownEndpoint));
  }

  lemma Distribute(word: Word, a: Word, b: Word)
    ensures word * (a + b) == word * a + word * b
    ensures word * b == {} ==> word * (a + b) == word * a
  {}

  // ---- Model validation -----------------------------------------------------------------------

  ghost predicate Apart(a: Source, b: Source) {
    a.statusMask !! b.statusMask && a.endpointMask !! b.endpointMask
  }

  ghost predicate PairwiseDisjoint(sources: seq<Source>) {
    forall i, j :: 0 <= i < j < |sources| ==> Apart(sources[i], sources[j])
  }

  predicate NonZero(s: Source) { s.statusMask != {} && s.endpointMask != {} }

  ghost predicate WellFormed(sources: seq<Source>) {
    sources != [] && (forall i :: 0 <= i < |sources| ==> NonZero(sources[i])) && PairwiseDisjoint(sources)
  }

  /** A mask misses the running unions exactly when it misses every source before it. */
  lemma MissesUnions(sources: seq<Source>, n: nat)
    requires n < |sources|
    ensures UnionOf(sources[..n], StatusBits) * sources[n].statusMask == {}
            && UnionOf(sources[..n], EndpointBits) * sources[n].endpointMask == {}
            <==> forall i :: 0 <= i < n ==> Apart(sources[i], sources[n])
  {
    var before, mask, endpoints := sources[..n], sources[n].statusMask, sources[n].endpointMask;
    assert forall i :: 0 <= i < n ==> before[i] == sources[i];
    EmptyMeet(UnionOf(before, StatusBits), mask);
    EmptyMeet(UnionOf(before, EndpointBits), endpoints);
    if UnionOf(before, StatusBits) * mask == {} && UnionOf(before, EndpointBits) * endpoints == {} {
      forall i | 0 <= i < n
        ensures Apart(sources[i], sources[n])
      {
        forall b: Bit
          ensures b in before[i].statusMask ==> b in UnionOf(before, StatusBits)
          ensures b in before[i].endpointMask ==> b in UnionOf(before, EndpointBits)
        {
          StatusIn(before, b);
          EndpointIn(before, b);
        }
      }
    }
    if forall i :: 0 <= i < n ==> Apart(sources[i], sources[n]) {
      forall b: Bit
        ensures b !in UnionOf(before, StatusBits) * mask && b !in UnionOf(before, EndpointBits) * endpoints
      {
        StatusIn(before, b);
        EndpointIn(before, b);
      }
    }
  }

  lemma EmptyMeet(a: Word, b: Word)
    ensures a * b == {} <==> a !! b
  {
    assert forall x: Bit :: x in a * b <==> x in a && x in b;
  }

  lemma StatusIn(sources: seq<Source>, b: Bit)
    ensures b in UnionOf(sources, StatusBits) <==> exists i :: 0 <= i < |sources| && b in sources[i].statusMask
  {
    InUnion(sources, StatusBits, b);
    assert forall i :: 0 <= i < |sources| ==> Part(sources[i], StatusBits) == sources[i].statusMask;
  }

  lemma EndpointIn(sources: seq<Source>, b: Bit)
    ensures b in UnionOf(sources, EndpointBits) <==> exists i :: 0 <= i < |sources| && b in sources[i].endpointMask
  {
    InUnion(sources, EndpointBits, b);
    assert forall i :: 0 <= i < |sources| ==> Part(sources[i], EndpointBits) == sources[i].endpointMask;
  }

  /** `_validate_model`: one running union per register accepts exactly the pairwise disjoint lists. */
  method ValidateModel(sources: seq<Source>) returns (ok: bool)
    ensures ok <==> WellFormed(sources)
  {
    if sources == [] {
      return false;
    }
    var seenStatus: Word, seenEndpoint: Word := {}, {};
    var n := 0;
    while n < |sources|
      invariant 0 <= n <= |sources|
      invariant forall i, j :: 0 <= i < j < n ==> Apart(sources[i], sources[j])
      invariant forall i :: 0 <= i < n ==> NonZero(sources[i])
      invariant seenStatus == UnionOf(sources[..n], StatusBits)
      invariant seenEndpoint == UnionOf(sources[..n], EndpointBits)
    {
      var item := sources[n];
      Grows(sources, n, StatusBits, HitBy({}));
      Grows(sources, n, EndpointBits, HitBy({}));
      MissesUnions(sources, n);
      if item.statusMask == {} || item.endpointMask == {} {
        return false;
      }
      if seenStatus * item.statusMask != {} || seenEndpoint * item.endpointMask != {} {
        return false;
      }
      seenStatus := seenStatus + item.statusMask;
      seenEndpoint := seenEndpoint + item.endpointMask;
      n := n + 1;
    }
    ok := true;
  }

  // ---- The generated C ------------------------------------------------------------------------

  /** The four `#define`d masks and the reportable terms, one per source. */
  datatype Program = Program(
    knownStatus: Word, knownEndpoint: Word, w1cStatus: Word, readOnlyStatus: Word, terms: seq<(Word, Word)>)

  datatype CDecode = CDecode(
    activeMask: Word, reportableMask: Word, readOnlyMask: Word, w1cAckMask: Word, unknownStatus: Word, unknownEndpoint: Word)

  ghost predicate TermsOf(terms: seq<(Word, Word)>, sources: seq<Source>) {
    |terms| == |sources|
    && forall i :: 0 <= i < |terms| ==> terms[i] == (sources[i].statusMask, sources[i].endpointMask)
  }

  /** `synthesize_candidate`, up to printing. */
  method Synthesize(sources: seq<Source>) returns (p: Program)
    ensures p.knownStatus == UnionOf(sources, StatusBits) && p.knownEndpoint == UnionOf(sources, EndpointBits)
    ensures p.w1cStatus == UnionOf(sources, ClearBits) && p.readOnlyStatus == UnionOf(sources, HeldBits)
    ensures TermsOf(p.terms, sources)
  {
    p := Program({}, {}, {}, {}, []);
    var n := 0;
    while n < |sources|
      invariant 0 <= n <= |sources|
      invariant p.knownStatus == UnionOf(sources[..n], StatusBits)
      invariant p.knownEndpoint == UnionOf(sources[..n], EndpointBits)
      invariant p.w1cStatus == UnionOf(sources[..n], ClearBits)
      invariant p.readOnlyStatus == UnionOf(sources[..n], HeldBits)
      invariant TermsOf(p.terms, sources[..n])
    {
      var item := sources[n];
      Grows(sources, n, StatusBits, HitBy({}));
      Grows(sources, n, EndpointBits, HitBy({}));
      Grows(sources, n, ClearBits, HitBy({}));
      Grows(sources, n, HeldBits, HitBy({}));
      p := p.(knownStatus := p.knownStatus + item.statusMask, knownEndpoint := p.knownEndpoint + item.endpointMask,
              terms := p.terms + [(item.statusMask, item.endpointMask)]);
      if item.clearing == WriteOneClear {
        p := p.(w1cStatus := p.w1cStatus + item.statusMask);
      } else {
        p := p.(readOnlyStatus := p.readOnlyStatus + item.statusMask);
      }
      n := n + 1;
    }
    assert sources[..n] == sources;
  }

  /** One call of the generated decoder with a non-null `out`. */
  method RunC(p: Program, status: Word, endpoint: Word, ghost sources: seq<Source>) returns (out: CDecode)
    requires TermsOf(p.terms, sources)
    ensures out.activeMask == status * p.knownStatus && out.readOnlyMask == status * p.readOnlyStatus
    ensures out.w1cAckMask == status * p.w1cStatus
    ensures out.unknownStatus == status * Not(p.knownStatus) && out.unknownEndpoint == endpoint * Not(p.knownEndpoint)
    ensures out.reportableMask == UnionOf(sources, ReportBits(status, endpoint))
  {
    var reportable: Word := {};
    var n := 0;
    while n < |p.terms|
      invariant 0 <= n <= |sources|
      invariant reportable == UnionOf(sources[..n], ReportBits(status, endpoint))
    {
      Grows(sources, n, ReportBits(status, endpoint), HitBy({}));
      var (statusMask, endpointMask) := p.terms[n];
      if status * statusMask != {} && endpoint * endpointMask != {} {
        reportable := reportable + statusMask;
      }
      n := n + 1;
    }
    assert sources[..n] == sources;
    out := CDecode(status * p.knownStatus, reportable, status * p.readOnlyStatus, status * p.w1cStatus,
                   status * Not(p.knownStatus), endpoint * Not(p.knownEndpoint));
  }

  // ---- Refinement -----------------------------------------------------------------------------

  /** Under disjointness a union of status bits meets mask i in the i-th part and nowhere else. */
  lemma OwnPartOnly(sources: seq<Source>, p: Pick, i: nat)
    requires PairwiseDisjoint(sources) && i < |sources| && p != EndpointBits
    ensures UnionOf(sources, p) * sources[i].statusMask == Part(sources[i], p)
  {
    forall b: Bit
      ensures b in UnionOf(sources, p) * sources[i].statusMask <==> b in Part(sources[i], p)
    {
      InUnion(sources, p, b);
      if b in UnionOf(sources, p) && b in sources[i].statusMask {
        var j :| 0 <= j < |sources| && b in Part(sources[j], p);
        assert b in sources[j].statusMask;
        if j < i { assert Apart(sources[j], sources[i]); }
        if i < j { assert Apart(sources[i], sources[j]); }
      }
    }
  }

  /**
   * For every disjoint list and every pair of words: a source is listed by the Python exactly when the
   * corresponding C mask intersects its own mask.
   */
  lemma SourceAgrees(sources: seq<Source>, status: Word, endpoint: Word, i: nat)
    requires WellFormed(sources) && i < |sources|
    ensures IsActive(sources[i], status) <==> Hits(status * UnionOf(sources, StatusBits), sources[i].statusMask)
    ensures IsReadOnly(sources[i], status) <==> Hits(status * UnionOf(sources, HeldBits), sources[i].statusMask)
    ensures IsReportable(sources[i], status, endpoint)
            <==> Hits(UnionOf(sources, ReportBits(status, endpoint)), sources[i].statusMask)
  {
    OwnPartOnly(sources, StatusBits, i);
    OwnPartOnly(sources, HeldBits, i);
    OwnPartOnly(sources, ReportBits(status, endpoint), i);
  }

  lemma {:induction false} SameNames(sources: seq<Source>, t: Test, u: Test)
    requires forall i :: 0 <= i < |sources| ==> Passes(sources[i], t) == Passes(sources[i], u)
    ensures NamesOf(sources, t) == NamesOf(sources, u)
  {
    if sources != [] { SameNames(sources[..|sources| - 1], t, u); }
  }

  /** The Python lists are the names the C masks hit. */
  lemma NamesAgree(sources: seq<Source>, status: Word, endpoint: Word)
    requires WellFormed(sources)
    ensures NamesOf(sources, ActiveIn(status)) == NamesOf(sources, HitBy(status * UnionOf(sources, StatusBits)))
    ensures NamesOf(sources, ReadOnlyIn(status)) == NamesOf(sources, HitBy(status * UnionOf(sources, HeldBits)))
    ensures NamesOf(sources, ReportableIn(status, endpoint))
            == NamesOf(sources, HitBy(UnionOf(sources, ReportBits(status, endpoint))))
  {
    forall i | 0 <= i < |sources|
      ensures Passes(sources[i], ActiveIn(status)) == Passes(sources[i], HitBy(status * UnionOf(sources, StatusBits)))
      ensures Passes(sources[i], ReadOnlyIn(status)) == Passes(sources[i], HitBy(status * UnionOf(sources, HeldBits)))
      ensures Passes(sources[i], ReportableIn(status, endpoint))
              == Passes(sources[i], HitBy(UnionOf(sources, ReportBits(status, endpoint))))
    {
      SourceAgrees(sources, status, endpoint, i);
    }
    SameNames(sources, ActiveIn(status), HitBy(status * UnionOf(sources, StatusBits)));
    SameNames(sources, ReadOnlyIn(status), HitBy(status * UnionOf(sources, HeldBits)));
    SameNames(sources, ReportableIn(status, endpoint), HitBy(UnionOf(sources, ReportBits(status, endpoint))));
  }

  /** The active mask is the disjoint union of the acknowledgeable and the read-only part. */
  lemma ActiveIsDisjointUnion(sources: seq<Source>, status: Word)
    requires PairwiseDisjoint(sources)
    ensures
      var w1c, held := status * UnionOf(sources, ClearBits), status * UnionOf(sources, HeldBits);
      status * UnionOf(sources, StatusBits) == w1c + held && w1c !! held
  {
    forall b: Bit
      ensures b in UnionOf(sources, StatusBits) <==> b in UnionOf(sources, ClearBits) + UnionOf(sources, HeldBits)
      ensures !(b in UnionOf(sources, ClearBits) && b in UnionOf(sources, HeldBits))
    {
      KindOfBit(sources, b);
    }
  }

  lemma KindOfBit(sources: seq<Source>, b: Bit)
    requires PairwiseDisjoint(sources)
    ensures b in UnionOf(sources, StatusBits) <==> b in UnionOf(sources, ClearBits) || b in UnionOf(sources, HeldBits)
    ensures !(b in UnionOf(sources, ClearBits) && b in UnionOf(sources, HeldBits))
  {
    StatusIn(sources, b);
    InUnion(sources, ClearBits, b);
    InUnion(sources, HeldBits, b);
    if i :| 0 <= i < |sources| && b in sources[i].statusMask {
      assert b in Part(sources[i], if sources[i].clearing == WriteOneClear then ClearBits else HeldBits);
      OwnPartOnly(sources, ClearBits, i);
      OwnPartOnly(sources, HeldBits, i);
    }
  }

  /** The two decoders side by side. */
  method DecodeBoth(sources: seq<Source>, status: Word, endpoint: Word) returns (d: Decode, out: CDecode)
    requires WellFormed(sources)
    ensures d.ackMask == out.w1cAckMask && d.unknownStatus == out.unknownStatus && d.unknownEndpoint == out.unknownEndpoint
    ensures d.active == NamesOf(sources, HitBy(out.activeMask))
    ensures d.reportable == NamesOf(sources, HitBy(out.reportableMask))
    ensures d.readOnly == NamesOf(sources, HitBy(out.readOnlyMask))
    ensures out.activeMask == out.w1cAckMask + out.readOnlyMask && out.w1cAckMask !! out.readOnlyMask
    ensures status == out.activeMask + out.unknownStatus && out.activeMask !! out.unknownStatus
  {
    d := DecodeInterrupts(sources, status, endpoint);
    var p := Synthesize(sources);
    out := RunC(p, status, endpoint, sources);
    NamesAgree(sources, status, endpoint);
    ActiveIsDisjointUnion(sources, status);
  }

  // ---- The differential's own comparison ------------------------------------------------------

  /** `{item["name"]: item}`: the last source stored under a name stays. */
  function ByName(sources: seq<Source>): map<string, Source> {
    if sources == [] then map[]
    else ByName(sources[..|sources| - 1])[sources[|sources| - 1].name := sources[|sources| - 1]]
  }

  predicate LastOfName(sources: seq<Source>, i: nat)
    requires i < |sources|
  {
    forall j :: i < j < |sources| ==> sources[j].name != sources[i].name
  }

  predicate AllIn(names: seq<string>, table: map<string, Source>) { forall i :: 0 <= i < |names| ==> names[i] in table }

  /** The whole masks of the named sources, as the differential looks them up. */
  function Rebuilt(table: map<string, Source>, names: seq<string>): Word
    requires AllIn(names, table)
  {
    if names == [] then {} else Rebuilt(table, names[..|names| - 1]) + table[names[|names| - 1]].statusMask
  }

  /** What is found under the name of source i: the last source of that name. */
  lemma {:induction false} FoundByName(sources: seq<Source>, i: nat) returns (k: nat)
    requires i < |sources|
    ensures i <= k < |sources| && sources[k].name == sources[i].name && LastOfName(sources, k)
    ensures sources[i].name in ByName(sources) && ByName(sources)[sources[i].name] == sources[k]
    ensures LastOfName(sources, i) ==> k == i
  {
    var n := |sources| - 1;
    if sources[n].name == sources[i].name {
      k := n;
    } else {
      k := FoundByName(sources[..n], i);
      assert forall j :: k < j < n ==> sources[..n][j] == sources[j];
    }
  }

  lemma {:induction false} NamesKnown(sources: seq<Source>, t: Test, table: map<string, Source>)
    requires forall i :: 0 <= i < |sources| ==> sources[i].name in table
    ensures AllIn(NamesOf(sources, t), table)
  {
    if sources != [] { NamesKnown(sources[..|sources| - 1], t, table); }
  }

  lemma {:induction false} InRebuilt(sources: seq<Source>, t: Test, table: map<string, Source>, b: Bit)
    requires forall i :: 0 <= i < |sources| ==> sources[i].name in table
    ensures AllIn(NamesOf(sources, t), table)
    ensures b in Rebuilt(table, NamesOf(sources, t))
            <==> exists i :: 0 <= i < |sources| && Passes(sources[i], t) && b in table[sources[i].name].statusMask
  {
    NamesKnown(sources, t, table);
    if sources != [] {
      var n := |sources| - 1;
      InRebuilt(sources[..n], t, table, b);
      var names := NamesOf(sources[..n], t);
      var all := NamesOf(sources, t);
      assert forall i :: 0 <= i < n ==> sources[..n][i] == sources[i];
      if Passes(sources[n], t) {
        assert all == names + [sources[n].name] && all[..|all| - 1] == names;
        assert Rebuilt(table, all) == Rebuilt(table, names) + table[sources[n].name].statusMask;
      } else {
        assert all == names;
      }
    }
  }

  /** The names that pass a test, turned back into whole masks. */
  function RebuiltFrom(sources: seq<Source>, t: Test): Word {
    NamesFound(sources, t);
    Rebuilt(ByName(sources), NamesOf(sources, t))
  }

  lemma NamesFound(sources: seq<Source>, t: Test)
    ensures forall i :: 0 <= i < |sources| ==> sources[i].name in ByName(sources)
    ensures AllIn(NamesOf(sources, t), ByName(sources))
  {
    forall i | 0 <= i < |sources|
      ensures sources[i].name in ByName(sources)
    {
      var k := FoundByName(sources, i);
    }
    NamesKnown(sources, t, ByName(sources));
  }

  lemma InRebuiltFrom(sources: seq<Source>, t: Test, b: Bit)
    requires b in RebuiltFrom(sources, t)
    ensures exists i, k :: 0 <= i <= k < |sources| && Passes(sources[i], t) && sources[i].name == sources[k].name
                           && LastOfName(sources, k) && b in sources[k].statusMask
  {
    NamesFound(sources, t);
    InRebuilt(sources, t, ByName(sources), b);
    var i :| 0 <= i < |sources| && Passes(sources[i], t) && b in ByName(sources)[sources[i].name].statusMask;
    var k := FoundByName(sources, i);
  }

  lemma LastIsRebuilt(sources: seq<Source>, t: Test, i: nat, b: Bit)
    requires i < |sources| && Passes(sources[i], t) && LastOfName(sources, i) && b in sources[i].statusMask
    ensures b in RebuiltFrom(sources, t)
  {
    NamesFound(sources, t);
    InRebuilt(sources, t, ByName(sources), b);
    var k := FoundByName(sources, i);
  }

  ghost predicate RebuildsAll(sources: seq<Source>, t: Test, c: Word) {
    forall i :: 0 <= i < |sources| && Passes(sources[i], t) ==> LastOfName(sources, i) && sources[i].statusMask <= c
  }

  /**
   * A C mask that hits exactly the sources that pass is the rebuilt mask exactly when it holds the whole mask
   * of each of them, and no later source took its name.
   */
  lemma RebuiltIff(sources: seq<Source>, t: Test, c: Word)
    requires WellFormed(sources) && c <= UnionOf(sources, StatusBits)
    requires forall i :: 0 <= i < |sources| ==> (Passes(sources[i], t) <==> Hits(c, sources[i].statusMask))
    ensures RebuiltFrom(sources, t) == c <==> RebuildsAll(sources, t, c)
  {
    if RebuiltFrom(sources, t) == c {
      forall i | 0 <= i < |sources| && Passes(sources[i], t)
        ensures LastOfName(sources, i) && sources[i].statusMask <= c
      {
        RebuiltNeedsLast(sources, t, c, i);
        forall b: Bit | b in sources[i].statusMask
          ensures b in c
        {
          LastIsRebuilt(sources, t, i, b);
        }
      }
    }
    if RebuildsAll(sources, t, c) {
      forall b: Bit
        ensures b in RebuiltFrom(sources, t) <==> b in c
      {
        RebuiltBit(sources, t, c, b);
      }
    }
  }

  lemma OneOwner(sources: seq<Source>, i: nat, k: nat, b: Bit)
    requires WellFormed(sources) && i < |sources| && k < |sources|
    ensures i < k && b in sources[i].statusMask ==> b !in sources[k].statusMask
  {
    if i < k { assert Apart(sources[i], sources[k]); }
  }

  lemma RebuiltNeedsLast(sources: seq<Source>, t: Test, c: Word, i: nat)
    requires WellFormed(sources) && i < |sources| && RebuiltFrom(sources, t) == c && Hits(c, sources[i].statusMask)
    ensures LastOfName(sources, i)
  {
    var b: Bit :| b in c * sources[i].statusMask;
    InRebuiltFrom(sources, t, b);
    var j, k :| 0 <= j <= k < |sources| && LastOfName(sources, k) && b in sources[k].statusMask;
    OneOwner(sources, i, k, b);
    OneOwner(sources, k, i, b);
  }

  lemma RebuiltBit(sources: seq<Source>, t: Test, c: Word, b: Bit)
    requires c <= UnionOf(sources, StatusBits) && RebuildsAll(sources, t, c)
    requires forall i :: 0 <= i < |sources| ==> (Passes(sources[i], t) <==> Hits(c, sources[i].statusMask))
    ensures b in RebuiltFrom(sources, t) <==> b in c
  {
    if b in RebuiltFrom(sources, t) {
      InRebuiltFrom(sources, t, b);
      var i, k :| 0 <= i <= k < |sources| && Passes(sources[i], t) && sources[i].name == sources[k].name
                  && LastOfName(sources, k) && b in sources[k].statusMask;
      assert i == k;
    }
    if b in c {
      StatusIn(sources, b);
      var i :| 0 <= i < |sources| && b in sources[i].statusMask;
      assert b in c * sources[i].statusMask;
      LastIsRebuilt(sources, t, i, b);
    }
  }

  /** Every active source is fully set, and no later source has its name. */
  ghost predicate WholeAndLast(sources: seq<Source>, status: Word) {
    forall i :: 0 <= i < |sources| && IsActive(sources[i], status) ==>
      sources[i].statusMask <= status && LastOfName(sources, i)
  }

  /** The masks that the differential rebuilds and compares. */
  ghost predicate WholeMasksAgree(sources: seq<Source>, status: Word, endpoint: Word) {
    && RebuiltFrom(sources, ActiveIn(status)) == status * UnionOf(sources, StatusBits)
    && RebuiltFrom(sources, ReportableIn(status, endpoint)) == UnionOf(sources, ReportBits(status, endpoint))
    && RebuiltFrom(sources, ReadOnlyIn(status)) == status * UnionOf(sources, HeldBits)
  }

  lemma PartInUnion(sources: seq<Source>, p: Pick, i: nat)
    requires i < |sources|
    ensures Part(sources[i], p) <= UnionOf(sources, p)
  {
    forall b: Bit | b in Part(sources[i], p)
      ensures b in UnionOf(sources, p)
    {
      InUnion(sources, p, b);
    }
  }

  lemma UnionIsKnown(sources: seq<Source>, p: Pick)
    requires p != EndpointBits
    ensures UnionOf(sources, p) <= UnionOf(sources, StatusBits)
  {
    forall b: Bit | b in UnionOf(sources, p)
      ensures b in UnionOf(sources, StatusBits)
    {
      InUnion(sources, p, b);
      StatusIn(sources, b);
    }
  }

  /** Each of the three comparisons, by the condition it comes down to. */
  lemma ActiveRebuilt(sources: seq<Source>, status: Word)
    requires WellFormed(sources)
    ensures RebuiltFrom(sources, ActiveIn(status)) == status * UnionOf(sources, StatusBits) <==> WholeAndLast(sources, status)
  {
    forall i | 0 <= i < |sources|
      ensures IsActive(sources[i], status) <==> Hits(status * UnionOf(sources, StatusBits), sources[i].statusMask)
      ensures sources[i].statusMask <= UnionOf(sources, StatusBits)
    {
      SourceAgrees(sources, status, {}, i);
      PartInUnion(sources, StatusBits, i);
    }
    RebuiltIff(sources, ActiveIn(status), status * UnionOf(sources, StatusBits));
  }

  lemma ReportableRebuilt(sources: seq<Source>, status: Word, endpoint: Word)
    requires WellFormed(sources) && WholeAndLast(sources, status)
    ensures RebuiltFrom(sources, ReportableIn(status, endpoint)) == UnionOf(sources, ReportBits(status, endpoint))
  {
    var c := UnionOf(sources, ReportBits(status, endpoint));
    forall i | 0 <= i < |sources|
      ensures IsReportable(sources[i], status, endpoint) <==> Hits(c, sources[i].statusMask)
      ensures IsReportable(sources[i], status, endpoint) ==> sources[i].statusMask <= c
    {
      SourceAgrees(sources, status, endpoint, i);
      PartInUnion(sources, ReportBits(status, endpoint), i);
    }
    UnionIsKnown(sources, ReportBits(status, endpoint));
    RebuiltIff(sources, ReportableIn(status, endpoint), c);
  }

  lemma ReadOnlyRebuilt(sources: seq<Source>, status: Word)
    requires WellFormed(sources) && WholeAndLast(sources, status)
    ensures RebuiltFrom(sources, ReadOnlyIn(status)) == status * UnionOf(sources, HeldBits)
  {
    var c := status * UnionOf(sources, HeldBits);
    forall i | 0 <= i < |sources|
      ensures IsReadOnly(sources[i], status) <==> Hits(c, sources[i].statusMask)
      ensures IsReadOnly(sources[i], status) ==> sources[i].statusMask <= c
    {
      SourceAgrees(sources, status, {}, i);
      PartInUnion(sources, HeldBits, i);
    }
    UnionIsKnown(sources, HeldBits);
    RebuiltIff(sources, ReadOnlyIn(status), c);
  }

  /**
   * The differential rebuilds whole masks from the Python's names and demands equality with the C words.
   * All three agree exactly when every active source is fully set and is the last of its name.
   */
  lemma WholeMasksAgreeIff(sources: seq<Source>, status: Word, endpoint: Word)
    requires WellFormed(sources)
    ensures WholeMasksAgree(sources, status, endpoint) <==> WholeAndLast(sources, status)
  {
    ActiveRebuilt(sources, status);
    if WholeAndLast(sources, status) {
      ReportableRebuilt(sources, status, endpoint);
      ReadOnlyRebuilt(sources, status);
    }
  }

  ghost predicate DistinctNames(sources: seq<Source>) {
    forall i, j :: 0 <= i < j < |sources| ==> sources[i].name != sources[j].name
  }

  ghost predicate SingleBits(sources: seq<Source>) {
    forall i :: 0 <= i < |sources| ==> |sources[i].statusMask| == 1
  }

  /** For arbitrary words, not only those of the scenarios: agreement on all of them takes single bits as well. */
  lemma AlwaysAgreesIff(sources: seq<Source>)
    requires WellFormed(sources)
    ensures (forall status: Word, endpoint: Word :: WholeMasksAgree(sources, status, endpoint))
            <==> DistinctNames(sources) && SingleBits(sources)
  {
    if DistinctNames(sources) && SingleBits(sources) {
      forall status: Word, endpoint: Word
        ensures WholeMasksAgree(sources, status, endpoint)
      {
        SingleBitMasksAgree(sources, status, endpoint);
      }
    }
    if forall status: Word, endpoint: Word :: WholeMasksAgree(sources, status, endpoint) {
      forall i | 0 <= i < |sources|
        ensures |sources[i].statusMask| == 1 && LastOfName(sources, i)
      {
        AgreementNeedsBoth(sources, i);
      }
    }
  }

  lemma AgreementNeedsBoth(sources: seq<Source>, i: nat)
    requires WellFormed(sources) && i < |sources|
    requires forall status: Word, endpoint: Word :: WholeMasksAgree(sources, status, endpoint)
    ensures |sources[i].statusMask| == 1 && LastOfName(sources, i)
  {
    assert NonZero(sources[i]);
    var b: Bit :| b in sources[i].statusMask;
    var one: Word := {b};
    assert WholeMasksAgree(sources, one, {});
    WholeMasksAgreeIff(sources, one, {});
    assert b in one * sources[i].statusMask;
    assert sources[i].statusMask == one;
  }

  lemma SingleBitMasksAgree(sources: seq<Source>, status: Word, endpoint: Word)
    requires WellFormed(sources) && DistinctNames(sources) && SingleBits(sources)
    ensures WholeMasksAgree(sources, status, endpoint)
  {
    forall i | 0 <= i < |sources| && IsActive(sources[i], status)
      ensures sources[i].statusMask <= status
    {
      var hit := status * sources[i].statusMask;
      SubsetSize(hit, sources[i].statusMask);
      if |hit| == 1 { SubsetOfSameSize(hit, sources[i].statusMask); }
    }
    WholeMasksAgreeIff(sources, status, endpoint);
  }

  method IndexByName(sources: seq<Source>) returns (table: map<string, Source>)
    ensures table == ByName(sources)
  {
    table := map[];
    var n := 0;
    while n < |sources|
      invariant 0 <= n <= |sources| && table == ByName(sources[..n])
    {
      assert sources[..n + 1][..n] == sources[..n];
      table := table[sources[n].name := sources[n]];
      n := n + 1;
    }
    assert sources[..n] == sources;
  }

  method Rebuild(table: map<string, Source>, names: seq<string>) returns (mask: Word)
    requires AllIn(names, table)
    ensures mask == Rebuilt(table, names)
  {
    mask := {};
    var n := 0;
    while n < |names|
      invariant 0 <= n <= |names| && mask == Rebuilt(table, names[..n])
    {
      assert names[..n + 1][..n] == names[..n];
      mask := mask + table[names[n]].statusMask;
      n := n + 1;
    }
    assert names[..n] == names;
  }

  /** One scenario of the differential: it passes exactly when every active source is fully set and last of its name. */
  method Differential(sources: seq<Source>, status: Word, endpoint: Word) returns (agrees: bool)
    requires WellFormed(sources)
    ensures agrees <==> WholeAndLast(sources, status)
  {
    var expected := DecodeInterrupts(sources, status, endpoint);
    var p := Synthesize(sources);
    var out := RunC(p, status, endpoint, sources);
    var table := IndexByName(sources);
    NamesFound(sources, ActiveIn(status));
    NamesFound(sources, ReportableIn(status, endpoint));
    NamesFound(sources, ReadOnlyIn(status));
    var active := Rebuild(table, expected.active);
    var reportable := Rebuild(table, expected.reportable);
    var readOnly := Rebuild(table, expected.readOnly);
    WholeMasksAgreeIff(sources, status, endpoint);
    agrees := out.activeMask == active && out.reportableMask == reportable && out.readOnlyMask == readOnly
              && out.w1cAckMask == expected.ackMask
              && out.unknownStatus == expected.unknownStatus && out.unknownEndpoint == expected.unknownEndpoint;
  }

  // ---- The scenarios of the differential ------------------------------------------------------

  /** Each source alone, once enabled at the endpoint and once masked. */
  function EachSource(sources: seq<Source>): seq<(Word, Word)> {
    if sources == [] then []
    else
      var last := sources[|sources| - 1];
      EachSource(sources[..|sources| - 1]) + [(last.statusMask, last.endpointMask), (last.statusMask, {})]
  }

  /** The lowest bit at or above `from` that a word does not have, as a word; no bit is the empty one. */
  function FirstMissing(word: Word, from: nat): (r: Word)
    requires from <= 32
    ensures r !! word
    decreases 32 - from
  {
    if from == 32 then {} else if from as Bit !in word then {from as Bit} else FirstMissing(word, from + 1)
  }

  const ODD_BITS: Word := set b: Bit | b as int % 2 == 1

  function KnownAndUnknown(status: Word, endpoint: Word): seq<(Word, Word)> {
    var extra, extraEndpoint := FirstMissing(status, 0), FirstMissing(endpoint, 0);
    [(status, endpoint), (status, endpoint * ODD_BITS)]
    + (if extra != {} then [(extra, {})] else [])
    + (if extraEndpoint != {} then [({}, extraEndpoint)] else [])
    + (if extra != {} && extraEndpoint != {} then [(status + extra, endpoint + extraEndpoint)] else [])
  }

  /** The words that the differential builds from a source list. */
  function Scenarios(sources: seq<Source>): seq<(Word, Word)> {
    [({}, {})] + EachSource(sources) + KnownAndUnknown(UnionOf(sources, StatusBits), UnionOf(sources, EndpointBits))
  }

  /** No source is partly set. */
  ghost predicate SetsWholeSources(sources: seq<Source>, status: Word) {
    forall i :: 0 <= i < |sources| && IsActive(sources[i], status) ==> sources[i].statusMask <= status
  }

  lemma {:induction false} InEachSource(sources: seq<Source>, k: nat) returns (i: nat)
    requires k < |EachSource(sources)|
    ensures i < |sources| && EachSource(sources)[k].0 == sources[i].statusMask
  {
    var last := |sources| - 1;
    if k < |EachSource(sources[..last])| { i := InEachSource(sources[..last], k); } else { i := last; }
  }

  lemma WholeSource(sources: seq<Source>, i: nat)
    requires WellFormed(sources) && i < |sources|
    ensures SetsWholeSources(sources, sources[i].statusMask)
  {
    forall k | 0 <= k < |sources| && IsActive(sources[k], sources[i].statusMask)
      ensures k == i
    {
      var b: Bit :| b in sources[i].statusMask * sources[k].statusMask;
      OneOwner(sources, i, k, b);
      OneOwner(sources, k, i, b);
    }
  }

  lemma KnownSources(sources: seq<Source>, extra: Word)
    requires extra !! UnionOf(sources, StatusBits)
    ensures SetsWholeSources(sources, UnionOf(sources, StatusBits) + extra) && SetsWholeSources(sources, extra)
    ensures SetsWholeSources(sources, {})
  {
    forall i | 0 <= i < |sources|
      ensures sources[i].statusMask <= UnionOf(sources, StatusBits)
    {
      PartInUnion(sources, StatusBits, i);
    }
  }

  lemma ScenarioSetsWhole(sources: seq<Source>, k: nat)
    requires WellFormed(sources) && k < |Scenarios(sources)|
    ensures SetsWholeSources(sources, Scenarios(sources)[k].0)
  {
    var known := UnionOf(sources, StatusBits);
    var each := |EachSource(sources)|;
    KnownSources(sources, FirstMissing(known, 0));
    KnownSources(sources, {});
    assert known + {} == known;
    if 1 <= k < 1 + each {
      assert Scenarios(sources)[k] == EachSource(sources)[k - 1];
      var i := InEachSource(sources, k - 1);
      WholeSource(sources, i);
    } else if k > each {
      var rest := KnownAndUnknown(known, UnionOf(sources, EndpointBits));
      assert Scenarios(sources)[k] == rest[k - 1 - each];
      KnownWords(known, UnionOf(sources, EndpointBits), k - 1 - each);
    }
  }

  lemma KnownWords(status: Word, endpoint: Word, k: nat)
    requires k < |KnownAndUnknown(status, endpoint)|
    ensures KnownAndUnknown(status, endpoint)[k].0 in [status, FirstMissing(status, 0), {}, status + FirstMissing(status, 0)]
  {}

  ghost predicate AllAgree(sources: seq<Source>, words: seq<(Word, Word)>) {
    forall k :: 0 <= k < |words| ==> WholeMasksAgree(sources, words[k].0, words[k].1)
  }

  lemma OneMoreAgrees(sources: seq<Source>, words: seq<(Word, Word)>, k: nat)
    requires WellFormed(sources) && k < |words| && AllAgree(sources, words[..k])
    ensures AllAgree(sources, words[..k + 1]) <==> WholeAndLast(sources, words[k].0)
    ensures AllAgree(sources, words) ==> WholeAndLast(sources, words[k].0)
  {
    WholeMasksAgreeIff(sources, words[k].0, words[k].1);
    assert words[..k + 1][k] == words[k];
    assert forall j :: 0 <= j < k ==> words[..k][j] == words[..k + 1][j];
  }

  ghost predicate ScenariosAgree(sources: seq<Source>) { AllAgree(sources, Scenarios(sources)) }

  /** On the words it builds, the differential passes exactly when no two sources share a name. */
  lemma ScenariosAgreeIff(sources: seq<Source>)
    requires WellFormed(sources)
    ensures ScenariosAgree(sources) <==> DistinctNames(sources)
  {
    if DistinctNames(sources) {
      forall k | 0 <= k < |Scenarios(sources)|
        ensures WholeMasksAgree(sources, Scenarios(sources)[k].0, Scenarios(sources)[k].1)
      {
        ScenarioSetsWhole(sources, k);
        WholeMasksAgreeIff(sources, Scenarios(sources)[k].0, Scenarios(sources)[k].1);
      }
    }
    if ScenariosAgree(sources) { AllKnownNeedsNames(sources); }
  }

  lemma AllKnownNeedsNames(sources: seq<Source>)
    requires WellFormed(sources) && ScenariosAgree(sources)
    ensures DistinctNames(sources)
  {
    var known, endpoint := UnionOf(sources, StatusBits), UnionOf(sources, EndpointBits);
    var k := 1 + |EachSource(sources)|;
    assert Scenarios(sources)[k] == KnownAndUnknown(known, endpoint)[0] == (known, endpoint);
    assert WholeMasksAgree(sources, known, endpoint);
    WholeMasksAgreeIff(sources, known, endpoint);
    forall i | 0 <= i < |sources|
      ensures LastOfName(sources, i)
    {
      assert NonZero(sources[i]);
      var b: Bit :| b in sources[i].statusMask;
      PartInUnion(sources, StatusBits, i);
      assert b in known * sources[i].statusMask;
    }
    forall i, j | 0 <= i < j < |sources|
      ensures sources[i].name != sources[j].name
    {
      assert LastOfName(sources, i);
    }
  }

  /** `run_differential`: it returns exactly for a well-formed model with distinct names, and raises for any other. */
  method RunDifferential(sources: seq<Source>) returns (passes: bool)
    ensures passes <==> WellFormed(sources) && DistinctNames(sources)
  {
    var valid := ValidateModel(sources);
    if !valid {
      return false;
    }
    var scenarios := ListScenarios(sources);
    ScenariosAgreeIff(sources);
    var k := 0;
    while k < |scenarios|
      invariant 0 <= k <= |scenarios|
      invariant AllAgree(sources, scenarios[..k])
    {
      var agrees := Differential(sources, scenarios[k].0, scenarios[k].1);
      OneMoreAgrees(sources, scenarios, k);
      if !agrees {
        return false;
      }
      k := k + 1;
    }
    assert scenarios[..k] == scenarios;
    passes := true;
  }

  method ListScenarios(sources: seq<Source>) returns (scenarios: seq<(Word, Word)>)
    ensures scenarios == Scenarios(sources)
  {
    var p := Synthesize(sources);
    scenarios := [({}, {})];
    var n := 0;
    while n < |sources|
      invariant 0 <= n <= |sources| && scenarios == [({}, {})] + EachSource(sources[..n])
    {
      assert sources[..n + 1][..n] == sources[..n];
      scenarios := scenarios + [(sources[n].statusMask, sources[n].endpointMask), (sources[n].statusMask, {})];
      n := n + 1;
    }
    assert sources[..n] == sources;
    scenarios := scenarios + KnownAndUnknown(p.knownStatus, p.knownEndpoint);
  }

  /** A fact about arbitrary words, none that a scenario builds: the names rebuild two bits, the C keeps the one set. */
  lemma PartialMaskDisagrees(source: Source)
    requires source == Source("phy", {0, 1}, {0}, ReadOnlySource)
    ensures WellFormed([source]) && !WholeMasksAgree([source], {0}, {})
  {
    var sources := [source];
    assert 0 in {0} * sources[0].statusMask;
    assert 1 in sources[0].statusMask;
    WholeMasksAgreeIff(sources, {0}, {});
  }

  /** Two single-bit sources of one name: the name rebuilds the second, the C keeps the first. */
  lemma SharedNameDisagrees(first: Source, second: Source)
    requires first == Source("phy", {0}, {0}, ReadOnlySource) && second == Source("phy", {1}, {1}, ReadOnlySource)
    ensures WellFormed([first, second]) && SingleBits([first, second]) && !WholeMasksAgree([first, second], {0}, {})
  {
    var sources := [first, second];
    assert 0 in {0} * sources[0].statusMask;
    assert sources[1].name == sources[0].name;
    WholeMasksAgreeIff(sources, {0}, {});
  }
}
