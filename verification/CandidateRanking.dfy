/** Which driver candidate is tried first: the classical order, and what a provider may change about it. */
module CandidateRanking {
  import opened Common
  import opened Sorting

  datatype Candidate = Candidate(id: string, lowRisk: bool, coverage: real, strict: bool)

  /** The classical sort key: low risk, then coverage downwards, then strictness, then the id. */
  predicate KeyLe(a: Candidate, b: Candidate) {
    if a.lowRisk != b.lowRisk then a.lowRisk
    else if a.coverage != b.coverage then a.coverage > b.coverage
    else if a.strict != b.strict then a.strict
    else LexLe(a.id, b.id)
  }

  ghost predicate UniqueIds(candidates: seq<Candidate>) {
    forall i, j :: 0 <= i < j < |candidates| ==> candidates[i].id != candidates[j].id
  }

  /** One item of a reply's list: a text, another value that can be hashed, or a list or object, which cannot. */
  datatype Item = Text(id: string) | Scalar | Nested

  /** The JSON that was printed, which may be too deep to parse; a missing key reads as an empty list. */
  datatype Reply = TooNested | NotAnObject | NoList | Ids(items: seq<Item>)

  /** What came back from the provider, if one is configured. */
  datatype Provider =
    | NotConfigured
    | BlankCommand  // not empty, but without a word to run
    | Failed  // it could not be run, ran out of time, or printed no JSON
    | NonZeroExit
    | Replied(reply: Reply, elapsed: real)

  /** White space to `shlex.split`, which finds no word in a line of nothing else. */
  predicate Blank(command: string) { forall i :: 0 <= i < |command| ==> command[i] in {' ', '\t', '\r', '\n'} }

  /** What a command line makes of a provider whose process would end as `outcome`. */
  function Launched(command: string, outcome: Provider): Provider {
    if command == "" then NotConfigured else if Blank(command) then BlankCommand else outcome
  }

  /** What the handler around the provider does not catch. */
  datatype RankError = AttributeError | TypeError | IndexError | RecursionError

  function Known(candidates: seq<Candidate>): set<string> { set c | c in candidates :: c.id }

  /** `by_id[id]`: a dictionary keeps the last candidate stored under an id. */
  function ById(candidates: seq<Candidate>, id: string): (c: Candidate)
    requires id in Known(candidates)
    ensures c in candidates && c.id == id
  {
    var last := candidates[|candidates| - 1];
    if last.id == id then last
    else
      assert candidates == candidates[..|candidates| - 1] + [last];
      ById(candidates[..|candidates| - 1], id)
  }

  predicate AllKnown(candidates: seq<Candidate>, ids: seq<string>) {
    forall i :: 0 <= i < |ids| ==> ids[i] in Known(candidates)
  }

  /** The look-up of each item in turn: stops at the first unknown one, raises at the first that cannot be hashed. */
  function Scan(candidates: seq<Candidate>, items: seq<Item>): Result<Option<seq<string>>, RankError> {
    if items == [] then Ok(Some([]))
    else
      match items[0]
      case Nested => Err(TypeError)
      case Scalar => Ok(None)
      case Text(id) =>
        if id !in Known(candidates) then Ok(None)
        else
          var rest := Scan(candidates, items[1..]);
          if rest.Ok? && rest.value.Some? then Ok(Some([id] + rest.value.value)) else rest
  }

  predicate KnownItem(candidates: seq<Candidate>, item: Item) { item.Text? && item.id in Known(candidates) }

  ghost predicate Unhashable(candidates: seq<Candidate>, items: seq<Item>) {
    exists i :: 0 <= i < |items| && items[i].Nested? && forall j :: 0 <= j < i ==> KnownItem(candidates, items[j])
  }

  lemma {:induction false} ScanMeans(candidates: seq<Candidate>, items: seq<Item>)
    ensures Scan(candidates, items).Err? <==> Unhashable(candidates, items)
    ensures Scan(candidates, items).Err? ==> Scan(candidates, items).error == TypeError
  {
    if items != [] && KnownItem(candidates, items[0]) {
      var rest := items[1..];
      ScanMeans(candidates, rest);
      if i :| 0 <= i < |items| && items[i].Nested? && forall j :: 0 <= j < i ==> KnownItem(candidates, items[j]) {
        assert rest[i - 1] == items[i] && forall j :: 0 <= j < i - 1 ==> rest[j] == items[j + 1];
        assert Unhashable(candidates, rest);
      }
      if i :| 0 <= i < |rest| && rest[i].Nested? && forall j :: 0 <= j < i ==> KnownItem(candidates, rest[j]) {
        assert items[i + 1] == rest[i];
        forall j | 0 <= j < i + 1
          ensures KnownItem(candidates, items[j])
        {
          if j > 0 { assert rest[j - 1] == items[j]; }
        }
      }
    }
  }

  function Picked(candidates: seq<Candidate>, ids: seq<string>): (r: seq<Candidate>)
    requires AllKnown(candidates, ids)
    ensures |r| == |ids| && forall i :: 0 <= i < |r| ==> r[i] in candidates && r[i].id == ids[i]
  {
    seq(|ids|, i requires 0 <= i < |ids| => ById(candidates, ids[i]))
  }

  function NotListed(candidates: seq<Candidate>, ids: seq<string>): (r: seq<Candidate>)
    ensures forall c :: c in r <==> c in candidates && c.id !in ids
  {
    if candidates == [] then []
    else (if candidates[0].id in ids then [] else [candidates[0]]) + NotListed(candidates[1..], ids)
  }

  datatype Ranking = Ranking(ordered: seq<Candidate>, providerUsed: bool)

  /** The time the tests that are left out would have taken. */
  function Savings(total: nat, listed: nat, perTest: real): real {
    perTest * (if listed < total then total - listed else 0) as real
  }

  /** The tests a reply must pass before it changes anything. */
  predicate Admitted(candidates: seq<Candidate>, ids: seq<string>, elapsed: real, perTest: real) {
    && ids != [] && AllKnown(candidates, ids) && |SetOf(ids)| == |ids| && candidates != []
    && (SortPermutes(candidates, KeyLe);
        var first := Sort(candidates, KeyLe)[0];
        ById(candidates, ids[0]).lowRisk && ById(candidates, ids[0]).coverage >= first.coverage)
    && elapsed < Savings(|candidates|, |ids|, perTest)
  }

  /** `rank_candidates`. */
  function RankCandidates(candidates: seq<Candidate>, provider: Provider, minimum: nat, perTest: real)
    : Result<Ranking, RankError>
  {
    var classical := Sort(candidates, KeyLe);
    if provider.NotConfigured? || |candidates| < minimum then Ok(Ranking(classical, false))
    else if provider.BlankCommand? then Err(IndexError)
    else if !provider.Replied? || provider.reply.NoList? then Ok(Ranking(classical, false))
    else if provider.reply.TooNested? then Err(RecursionError)
    else if provider.reply.NotAnObject? then Err(AttributeError)
    else
      match Scan(candidates, provider.reply.items)
      case Err(error) => Err(error)
      case Ok(None) => Ok(Ranking(classical, false))
      case Ok(Some(ids)) =>
        if !Admitted(candidates, ids, provider.elapsed, perTest) then Ok(Ranking(classical, false))
        else Ok(Ranking(Picked(candidates, ids) + NotListed(classical, ids), true))
  }

  /** An explicit request moves one candidate to the front; an unknown one raises. */
  function Requested(candidates: seq<Candidate>, id: string): Option<seq<Candidate>> {
    if id !in Known(candidates) then None
    else Some(With(candidates, id) + NotListed(candidates, [id]))
  }

  function With(candidates: seq<Candidate>, id: string): (r: seq<Candidate>)
    ensures forall c :: c in r <==> c in candidates && c.id == id
  {
    if candidates == [] then []
    else (if candidates[0].id == id then [candidates[0]] else []) + With(candidates[1..], id)
  }

  // ---- The order is total ---------------------------------------------------------------------

  lemma KeyRanks(candidates: seq<Candidate>)
    requires UniqueIds(candidates)
    ensures Ranks(KeyLe) && NoTies(candidates, KeyLe)
  {
    LexRanks([]);
    forall a: Candidate, b: Candidate
      ensures KeyLe(a, b) || KeyLe(b, a)
      ensures KeyLe(a, b) && KeyLe(b, a) ==> a.id == b.id
    {
      LexTotal(a.id, b.id);
    }
    forall a, b | a in candidates && b in candidates && a.id == b.id
      ensures a == b
    {
      SameIdSame(candidates, a, b);
    }
  }

  lemma SameIdSame(candidates: seq<Candidate>, a: Candidate, b: Candidate)
    requires UniqueIds(candidates) && a in candidates && b in candidates && a.id == b.id
    ensures a == b
  {
    var i :| 0 <= i < |candidates| && candidates[i] == a;
    var j :| 0 <= j < |candidates| && candidates[j] == b;
    assert !(i < j) && !(j < i);
  }

  lemma SortedMembers(candidates: seq<Candidate>)
    ensures |Sort(candidates, KeyLe)| == |candidates|
    ensures forall c :: c in Sort(candidates, KeyLe) <==> c in candidates
  {
    SortPermutes(candidates, KeyLe);
    forall c
      ensures c in Sort(candidates, KeyLe) <==> c in candidates
    {
      assert c in multiset(Sort(candidates, KeyLe)) <==> c in multiset(candidates);
    }
  }

  // ---- Nothing is lost ------------------------------------------------------------------------

  lemma {:induction false} CountOnce(s: seq<Candidate>, c: Candidate)
    requires UniqueIds(s)
    ensures multiset(s)[c] == if c in s then 1 else 0
  {
    if s != [] {
      var rest, last := s[..|s| - 1], s[|s| - 1];
      assert s == rest + [last];
      CountOnce(rest, c);
    }
  }

  lemma {:induction false} NotListedUnique(s: seq<Candidate>, ids: seq<string>)
    requires UniqueIds(s)
    ensures UniqueIds(NotListed(s, ids))
  {
    if s != [] {
      NotListedUnique(s[1..], ids);
      forall c | c in NotListed(s[1..], ids)
        ensures c.id != s[0].id
      {
        assert c in s[1..];
      }
    }
  }

  lemma SortedUnique(candidates: seq<Candidate>)
    requires UniqueIds(candidates)
    ensures UniqueIds(Sort(candidates, KeyLe))
  {
    var s := Sort(candidates, KeyLe);
    SortPermutes(candidates, KeyLe);
    SortedMembers(candidates);
    forall i, j | 0 <= i < j < |s|
      ensures s[i].id != s[j].id
    {
      if s[i].id == s[j].id {
        SameIdSame(candidates, s[i], s[j]);
        CountOnce(candidates, s[i]);
        TwiceCounted(s, i, j);
      }
    }
  }

  lemma TwiceCounted(s: seq<Candidate>, i: nat, j: nat)
    requires i < j < |s| && s[i] == s[j]
    ensures multiset(s)[s[i]] >= 2
  {
    assert s == s[..i] + [s[i]] + s[i + 1..j] + [s[j]] + s[j + 1..];
  }

  lemma SameOnce(a: seq<Candidate>, b: seq<Candidate>)
    requires UniqueIds(a) && UniqueIds(b) && forall c :: c in a <==> c in b
    ensures multiset(a) == multiset(b)
  {
    forall c
      ensures multiset(a)[c] == multiset(b)[c]
    {
      CountOnce(a, c);
      CountOnce(b, c);
    }
  }

  /** The list of texts behind a ranking that the provider shaped. */
  lemma UsedMeans(candidates: seq<Candidate>, provider: Provider, minimum: nat, perTest: real) returns (ids: seq<string>)
    requires
      var r := RankCandidates(candidates, provider, minimum, perTest);
      r.Ok? && r.value.providerUsed
    ensures Admitted(candidates, ids, provider.elapsed, perTest)
    ensures RankCandidates(candidates, provider, minimum, perTest).value.ordered
            == Picked(candidates, ids) + NotListed(Sort(candidates, KeyLe), ids)
  {
    ids := Scan(candidates, provider.reply.items).value.value;
  }

  /**
   * What escapes as an exception: a command without a word in it, JSON too deep to parse, JSON that is no object, and
   * a list in which something unhashable comes before anything unknown. Everything else is answered with a ranking.
   */
  lemma RaisesIff(candidates: seq<Candidate>, provider: Provider, minimum: nat, perTest: real)
    ensures
      var r := RankCandidates(candidates, provider, minimum, perTest);
      var asked := |candidates| >= minimum && provider.Replied?;
      && (r == Err(IndexError) <==> |candidates| >= minimum && provider.BlankCommand?)
      && (r == Err(RecursionError) <==> asked && provider.reply.TooNested?)
      && (r == Err(AttributeError) <==> asked && provider.reply.NotAnObject?)
      && (r == Err(TypeError) <==> asked && provider.reply.Ids? && Unhashable(candidates, provider.reply.items))
  {
    if provider.Replied? && provider.reply.Ids? { ScanMeans(candidates, provider.reply.items); }
  }

  lemma PickedFirstKeepsAll(candidates: seq<Candidate>, ids: seq<string>)
    requires UniqueIds(candidates) && AllKnown(candidates, ids) && |SetOf(ids)| == |ids|
    ensures multiset(Picked(candidates, ids) + NotListed(Sort(candidates, KeyLe), ids)) == multiset(candidates)
  {
    var picked, others := Picked(candidates, ids), NotListed(Sort(candidates, KeyLe), ids);
    DistinctCount(ids);
    SortedUnique(candidates);
    SortedMembers(candidates);
    NotListedUnique(Sort(candidates, KeyLe), ids);
    forall c
      ensures c in picked + others <==> c in candidates
    {
      if c in candidates && c.id in ids {
        var i :| 0 <= i < |ids| && ids[i] == c.id;
        SameIdSame(candidates, picked[i], c);
      }
    }
    SameOnce(picked + others, candidates);
  }

  /** The command " " is configured, and there is nothing in it to run. */
  lemma BlankCommandRaises(candidates: seq<Candidate>, outcome: Provider, minimum: nat, perTest: real)
    requires |candidates| >= minimum
    ensures RankCandidates(candidates, Launched(" ", outcome), minimum, perTest) == Err(IndexError)
  {}

  /** Whatever the provider says, every candidate is still in a ranking that is returned, once. */
  lemma RankingIsAPermutation(candidates: seq<Candidate>, provider: Provider, minimum: nat, perTest: real)
    requires UniqueIds(candidates)
    ensures
      var r := RankCandidates(candidates, provider, minimum, perTest);
      r.Ok? ==> multiset(r.value.ordered) == multiset(candidates)
  {
    SortPermutes(candidates, KeyLe);
    var r := RankCandidates(candidates, provider, minimum, perTest);
    if r.Ok? && r.value.providerUsed {
      var ids := UsedMeans(candidates, provider, minimum, perTest);
      PickedFirstKeepsAll(candidates, ids);
    }
  }

  // ---- The first candidate --------------------------------------------------------------------

  /** No candidate of its risk class or a better one promises more. */
  ghost predicate BestBet(c: Candidate, candidates: seq<Candidate>) {
    && c in candidates
    && forall d :: d in candidates ==> (d.lowRisk ==> c.lowRisk) && (d.lowRisk == c.lowRisk ==> d.coverage <= c.coverage)
  }

  lemma ClassicalFirst(candidates: seq<Candidate>)
    requires UniqueIds(candidates) && candidates != []
    ensures Sort(candidates, KeyLe) != [] && BestBet(Sort(candidates, KeyLe)[0], candidates)
  {
    KeyRanks(candidates);
    SortedMembers(candidates);
    SortSorts(candidates, KeyLe);
    var s := Sort(candidates, KeyLe);
    forall d | d in candidates
      ensures KeyLe(s[0], d)
    {
      var i :| 0 <= i < |s| && s[i] == d;
      LexTotal(d.id, d.id);
    }
  }

  /**
   * A provider can never bring forward a riskier or a less promising candidate: with or without one, what is
   * tried first is a best bet.
   */
  lemma FirstIsNeverWorse(candidates: seq<Candidate>, provider: Provider, minimum: nat, perTest: real)
    requires UniqueIds(candidates) && candidates != []
    ensures
      var r := RankCandidates(candidates, provider, minimum, perTest);
      r.Ok? ==> r.value.ordered != [] && BestBet(r.value.ordered[0], candidates)
  {
    ClassicalFirst(candidates);
    var r := RankCandidates(candidates, provider, minimum, perTest);
    if r.Ok? && r.value.providerUsed {
      var ids := UsedMeans(candidates, provider, minimum, perTest);
      assert r.value.ordered[0] == ById(candidates, ids[0]);
    }
  }

  /** Without a provider the order the catalog is written in does not matter. */
  lemma CatalogOrderIsIrrelevant(a: seq<Candidate>, b: seq<Candidate>, minimum: nat, perTest: real)
    requires UniqueIds(a) && multiset(a) == multiset(b)
    ensures RankCandidates(a, NotConfigured, minimum, perTest).Ok?
    ensures RankCandidates(a, NotConfigured, minimum, perTest) == RankCandidates(b, NotConfigured, minimum, perTest)
  {
    KeyRanks(a);
    SortForgetsOrder(a, b, KeyLe);
  }

  /** A request is honoured exactly for a known id: that candidate first, all the others behind it. */
  lemma RequestGoesFirst(candidates: seq<Candidate>, id: string)
    requires UniqueIds(candidates)
    ensures Requested(candidates, id).Some? <==> id in Known(candidates)
    ensures Requested(candidates, id).Some? ==>
              var ordered := Requested(candidates, id).value;
              ordered != [] && ordered[0].id == id && multiset(ordered) == multiset(candidates)
  {
    if id in Known(candidates) {
      var c :| c in candidates && c.id == id;
      var front := With(candidates, id);
      WithUnique(candidates, id);
      NotListedUnique(candidates, [id]);
      assert c in front && front[0] in front;
      SameOnce(front + NotListed(candidates, [id]), candidates);
    }
  }

  lemma {:induction false} WithUnique(s: seq<Candidate>, id: string)
    requires UniqueIds(s)
    ensures UniqueIds(With(s, id))
  {
    if s != [] {
      WithUnique(s[1..], id);
      forall c | c in With(s[1..], id)
        ensures c.id != s[0].id
      {
        assert c in s[1..];
      }
    }
  }
}
