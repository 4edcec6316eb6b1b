/** The future-branch projector: in-place edits of ranked prescription lists, and their idempotence. */
module EvidenceProjector {
  import opened Common

  type Fields = map<string, string>

  /** What `int` makes of an entry's rank: nothing is there, a number, or an exception. */
  datatype Rank = NoRank | Number(value: int) | Unreadable

  /** A JSON object with its family and rank picked out, or anything else that sits in the array. */
  datatype Node = Entry(family: Option<string>, rank: Rank, fields: Fields) | Foreign

  /** `branch.get(key)`: nothing, something that is no array, or an array. */
  datatype Listing = Absent | NotAList | Listed(entries: seq<Node>)

  datatype ProjectionError = NotAnArray | NotObjects | NotARank

  predicate AllEntries(e: seq<Node>) { forall i :: 0 <= i < |e| ==> e[i].Entry? }

  predicate IsOf(n: Node, family: string) { n.Entry? && n.family == Some(family) }

  function FirstOf(e: seq<Node>, family: string): (r: Option<nat>)
    ensures r.Some? ==> r.value < |e| && IsOf(e[r.value], family) && forall j :: 0 <= j < r.value ==> !IsOf(e[j], family)
    ensures r.None? ==> forall j :: 0 <= j < |e| ==> !IsOf(e[j], family)
  {
    if e == [] then None
    else if IsOf(e[0], family) then Some(0)
    else
      match FirstOf(e[1..], family)
      case None => None
      case Some(i) => Some(i + 1)
  }

  /** `dict.update`. */
  function Merge(n: Node, values: Fields): Node
    requires n.Entry?
  {
    n.(fields := n.fields + values)
  }

  // ---- The edits, as functions of the array ---------------------------------------------------

  function Updated(e: seq<Node>, family: string, values: Fields): seq<Node> {
    match FirstOf(e, family)
    case None => e
    case Some(i) => e[i := Merge(e[i], values)]
  }

  /** `_normalize_input_ranks`. */
  function Ranked(e: seq<Node>): (r: seq<Node>)
    requires AllEntries(e)
    ensures |r| == |e| && AllEntries(r)
    ensures forall i :: 0 <= i < |r| ==> r[i] == e[i].(rank := Number(i + 1))
  {
    seq(|e|, i requires 0 <= i < |e| => e[i].(rank := Number(i + 1)))
  }

  function ToFront(e: seq<Node>, i: nat): (r: seq<Node>)
    requires i < |e|
    ensures |r| == |e| && r[0] == e[i]
    ensures forall k :: 1 <= k < |r| ==> r[k] == e[if k <= i then k - 1 else k]
  {
    [e[i]] + e[..i] + e[i + 1..]
  }

  function Upserted(e: seq<Node>, family: string, values: Fields): seq<Node>
    requires AllEntries(e)
  {
    var grown := if FirstOf(e, family).None? then e + [Entry(Some(family), NoRank, map[])] else e;
    FoundAfterAppend(e, family);
    var i := FirstOf(grown, family).value;
    var merged := grown[i := Merge(grown[i], values)];
    Ranked(ToFront(merged, i))
  }

  lemma FoundAfterAppend(e: seq<Node>, family: string)
    ensures FirstOf(if FirstOf(e, family).None? then e + [Entry(Some(family), NoRank, map[])] else e, family).Some?
  {
    if FirstOf(e, family).None? {
      var grown := e + [Entry(Some(family), NoRank, map[])];
      assert IsOf(grown[|e|], family);
    }
  }

  function Without(e: seq<Node>, family: string): (r: seq<Node>)
    ensures AllEntries(e) ==> AllEntries(r)
    ensures forall n :: n in r ==> n in e && !IsOf(n, family)
  {
    if e == [] then []
    else (if IsOf(e[0], family) then [] else [e[0]]) + Without(e[1..], family)
  }

  /** An array that loses nothing keeps its ranks as they are. */
  function Removed(e: seq<Node>, family: string): seq<Node>
    requires AllEntries(e)
  {
    if |Without(e, family)| != |e| then Ranked(Without(e, family)) else e
  }

  function Promoted(e: seq<Node>, family: string): seq<Node>
    requires AllEntries(e)
  {
    match FirstOf(e, family)
    case None => e
    case Some(i) => Ranked(ToFront(e, i))
  }

  /** `min` takes the rank of every object, and raises if one of them is none. */
  predicate RanksReadable(e: seq<Node>) { forall i :: 0 <= i < |e| ==> e[i].Entry? ==> !e[i].rank.Unreadable? }

  /** `min(ranked, key=rank)`: the first object of least rank, a missing rank counting as a thousand million. */
  function RankOf(n: Node): int { if n.Entry? && n.rank.Number? then n.rank.value else 1_000_000_000 }

  function TopOf(e: seq<Node>): (r: Option<nat>)
    ensures r.Some? ==> r.value < |e| && e[r.value].Entry?
    ensures r.Some? ==> forall j :: 0 <= j < |e| && e[j].Entry? ==>
              RankOf(e[r.value]) <= RankOf(e[j]) && (j < r.value ==> RankOf(e[r.value]) < RankOf(e[j]))
    ensures r.None? ==> forall j :: 0 <= j < |e| ==> e[j].Foreign?
  {
    if e == [] then None
    else
      var rest := TopOf(e[1..]);
      if e[0].Foreign? then (if rest.None? then None else Some(rest.value + 1))
      else if rest.None? || RankOf(e[0]) <= RankOf(e[1..][rest.value]) then Some(0)
      else Some(rest.value + 1)
  }

  function TopUpdated(e: seq<Node>, values: Fields): seq<Node> {
    match TopOf(e)
    case None => e
    case Some(i) => e[i := Merge(e[i], values)]
  }

  // ---- The branch, edited in place ------------------------------------------------------------

  class Branch {
    var inputs: Listing
    var outcomes: Listing

    constructor (inputs: Listing, outcomes: Listing)
      ensures this.inputs == inputs && this.outcomes == outcomes
    {
      this.inputs, this.outcomes := inputs, outcomes;
    }

    method UpdateInputFamily(family: string, values: Fields) returns (error: Option<ProjectionError>)
      modifies this`inputs
      ensures error == if old(inputs).NotAList? then Some(NotAnArray) else None
      ensures inputs == if old(inputs).Listed? then Listed(Updated(old(inputs).entries, family, values)) else old(inputs)
    {
      if inputs.Absent? {
        return None;
      }
      if inputs.NotAList? {
        return Some(NotAnArray);
      }
      var e := inputs.entries;
      var n := 0;
      while n < |e|
        invariant 0 <= n <= |e| && forall j :: 0 <= j < n ==> !IsOf(e[j], family)
      {
        if IsOf(e[n], family) {
          FirstIs(e, family, n);
          inputs := Listed(e[n := Merge(e[n], values)]);
          return None;
        }
        n := n + 1;
      }
      error := None;
    }

    /** `promote=True`, the only way the projector calls it. */
    method UpsertInputFamily(family: string, values: Fields) returns (error: Option<ProjectionError>)
      modifies this`inputs
      ensures error.None? <==> old(inputs).Absent? || (old(inputs).Listed? && AllEntries(old(inputs).entries))
      ensures error.Some? ==> inputs == old(inputs)
      ensures error.None? ==>
                inputs == Listed(Upserted(if old(inputs).Listed? then old(inputs).entries else [], family, values))
    {
      if inputs.NotAList? {
        return Some(NotAnArray);
      }
      var e := if inputs.Absent? then [] else inputs.entries;
      if !AllEntries(e) {
        return Some(NotObjects);
      }
      e := Placed(e, family, values);
      inputs := Listed(e);
      error := None;
    }

    /** Find or append, update, remove by value, insert in front, renumber. */
    static method Placed(entries: seq<Node>, family: string, values: Fields) returns (e: seq<Node>)
      requires AllEntries(entries)
      ensures e == Upserted(entries, family, values)
    {
      e := entries;
      FoundAfterAppend(e, family);
      if FirstOf(e, family).None? {
        e := e + [Entry(Some(family), NoRank, map[])];
      }
      var i := FirstOf(e, family).value;
      ghost var grown := e;
      e := e[i := Merge(e[i], values)];
      FoundByValue(e, family, i);
      var target := e[i];
      e := MovedByValue(e, target);
      e := Ranked(e);
    }

    static function MovedByValue(e: seq<Node>, target: Node): (r: seq<Node>)
      requires target in e
      ensures r == ToFront(e, EqualAt(e, target))
    {
      var at := EqualAt(e, target);
      [target] + (e[..at] + e[at + 1..])
    }

    method RemoveInputFamily(family: string) returns (error: Option<ProjectionError>)
      modifies this`inputs
      ensures error.None? <==> old(inputs).Absent? || (old(inputs).Listed? && AllEntries(old(inputs).entries))
      ensures error.Some? || old(inputs).Absent? ==> inputs == old(inputs)
      ensures error.None? && old(inputs).Listed? ==> inputs == Listed(Removed(old(inputs).entries, family))
    {
      if inputs.Absent? {
        return None;
      }
      if inputs.NotAList? {
        return Some(NotAnArray);
      }
      if !AllEntries(inputs.entries) {
        return Some(NotObjects);
      }
      var filtered := Without(inputs.entries, family);
      if |filtered| != |inputs.entries| {
        inputs := Listed(Ranked(filtered));
      }
      error := None;
    }

    method PromoteInputFamily(family: string) returns (error: Option<ProjectionError>)
      modifies this`inputs
      ensures error.None? <==> old(inputs).Absent? || (old(inputs).Listed? && AllEntries(old(inputs).entries))
      ensures error.Some? || old(inputs).Absent? ==> inputs == old(inputs)
      ensures error.None? && old(inputs).Listed? ==> inputs == Listed(Promoted(old(inputs).entries, family))
    {
      if inputs.Absent? {
        return None;
      }
      if inputs.NotAList? {
        return Some(NotAnArray);
      }
      if !AllEntries(inputs.entries) {
        return Some(NotObjects);
      }
      var e := inputs.entries;
      var first := FirstOf(e, family);
      if first.None? {
        return None;
      }
      var target := e[first.value];
      e := MovedByValue(e, target);
      inputs := Listed(Ranked(e));
      error := None;
    }

    method UpdateTopOutcome(values: Fields) returns (error: Option<ProjectionError>)
      modifies this`outcomes
      ensures error == if old(outcomes).NotAList? then Some(NotAnArray)
                       else if old(outcomes).Listed? && !RanksReadable(old(outcomes).entries) then Some(NotARank) else None
      ensures outcomes == if old(outcomes).Listed? && error.None? then Listed(TopUpdated(old(outcomes).entries, values)) else old(outcomes)
    {
      if outcomes.NotAList? {
        return Some(NotAnArray);
      }
      if outcomes.Listed? && !RanksReadable(outcomes.entries) {
        return Some(NotARank);
      }
      if outcomes.Listed? && TopOf(outcomes.entries).Some? {
        var i := TopOf(outcomes.entries).value;
        outcomes := Listed(outcomes.entries[i := Merge(outcomes.entries[i], values)]);
      }
      error := None;
    }

    /** `_project_live_prescriptions`, given the texts it derives from the evidence. */
    method Project(p: Plan) returns (error: Option<ProjectionError>)
      modifies this
      ensures error.None? <==> Projectable(old(inputs), old(outcomes))
      ensures error.None? ==> inputs == ProjectedInputs(old(inputs), p) && outcomes == ProjectedOutcomes(old(outcomes), p)
    {
      error := UpdateInputFamily(AUTHORIZATION, p.authorization);
      if error.Some? { return; }
      error := UpdateInputFamily(STATUS, p.status);
      if error.Some? { return; }
      error := UpdateInputFamily(GENERIC, p.generic);
      if error.Some? { return; }
      if old(inputs).Listed? { UpdatesKeepKinds(old(inputs).entries, p); }
      if p.mode == WaitingForMedia {
        error := UpsertInputFamily(MEDIA, p.media);
        if error.Some? { return; }
      } else {
        error := RemoveInputFamily(MEDIA);
        if error.Some? { return; }
        if p.mode == ReadyToBoot {
          error := PromoteInputFamily(SUCCESS);
        } else if p.mode == FlashEligible {
          error := PromoteInputFamily(AUTHORIZATION);
        }
      }
      if error.Some? { return; }
      error := UpdateTopOutcome(p.top);
    }
  }

  /** `list.index` by value: the first entry equal to the target. */
  function EqualAt(e: seq<Node>, target: Node): (i: nat)
    requires target in e
    ensures i < |e| && e[i] == target && forall j :: 0 <= j < i ==> e[j] != target
  {
    if e[0] == target then 0 else 1 + EqualAt(e[1..], target)
  }

  /** No entry before the first of its family equals it. */
  lemma FoundByValue(e: seq<Node>, family: string, i: nat)
    requires AllEntries(e) && i < |e| && IsOf(e[i], family) && forall j :: 0 <= j < i ==> !IsOf(e[j], family)
    ensures e[i] in e && EqualAt(e, e[i]) == i
    ensures AllEntries(ToFront(e, i))
  {}

  lemma FirstIs(e: seq<Node>, family: string, i: nat)
    requires i < |e| && IsOf(e[i], family) && forall j :: 0 <= j < i ==> !IsOf(e[j], family)
    ensures FirstOf(e, family) == Some(i)
  {}

  // ---- The projection -------------------------------------------------------------------------

  const AUTHORIZATION := "explicit-guarded-flash-authorization"
  const STATUS := "status-or-so"
  const GENERIC := "generic-prompt-intent-expansion"
  const MEDIA := "physical-media-present"
  const SUCCESS := "physical-result-success"

  datatype Mode = WaitingForMedia | ReadyToBoot | FlashEligible | Blocked

  /** The texts the evidence determines, and the branch it selects. */
  datatype Plan = Plan(authorization: Fields, status: Fields, generic: Fields, media: Fields, top: Fields, mode: Mode)

  datatype Evidence = Evidence(
    releaseReadyToFlash: bool, preflightMatchesRelease: bool, preflightState: string, terminalRecovery: bool,
    handoffReleased: bool, eligibleCount: int, candidatePresent: bool, anyAuthority: bool,
    flashPresent: bool, flashMatches: bool, flashReadyToBoot: bool, readbackVerified: bool)

  predicate BootReady(v: Evidence) { v.flashPresent && v.flashMatches && v.flashReadyToBoot && v.readbackVerified }

  predicate Waiting(v: Evidence) {
    v.releaseReadyToFlash && v.preflightMatchesRelease && v.preflightState == "WAIT_USB_MEDIA" && !BootReady(v)
  }

  predicate Eligible(v: Evidence) {
    && v.releaseReadyToFlash && v.preflightMatchesRelease && v.preflightState == "READY_FOR_GUARDED_FLASH_PREFLIGHT"
    && v.terminalRecovery && v.handoffReleased && v.eligibleCount == 1 && v.candidatePresent && !v.anyAuthority
    && !BootReady(v)
  }

  function ModeOf(v: Evidence): Mode {
    if Waiting(v) then WaitingForMedia
    else if BootReady(v) then ReadyToBoot
    else if Eligible(v) then FlashEligible
    else Blocked
  }

  /** The source tests the flags separately; at most one of them holds, so the mode carries all three. */
  lemma ModesExclude(v: Evidence)
    ensures ModeOf(v) == WaitingForMedia <==> Waiting(v)
    ensures ModeOf(v) == ReadyToBoot <==> BootReady(v)
    ensures ModeOf(v) == FlashEligible <==> Eligible(v)
  {}

  predicate Projectable(inputs: Listing, outcomes: Listing) {
    && (inputs.Absent? || (inputs.Listed? && AllEntries(inputs.entries)))
    && (outcomes.Absent? || (outcomes.Listed? && RanksReadable(outcomes.entries)))
  }

  function ThreeUpdates(e: seq<Node>, p: Plan): seq<Node> {
    Updated(Updated(Updated(e, AUTHORIZATION, p.authorization), STATUS, p.status), GENERIC, p.generic)
  }

  lemma UpdatesKeepKinds(e: seq<Node>, p: Plan)
    ensures AllEntries(ThreeUpdates(e, p)) <==> AllEntries(e)
  {
    UpdateKeepsKinds(e, AUTHORIZATION, p.authorization);
    var e1 := Updated(e, AUTHORIZATION, p.authorization);
    UpdateKeepsKinds(e1, STATUS, p.status);
    UpdateKeepsKinds(Updated(e1, STATUS, p.status), GENERIC, p.generic);
  }

  lemma UpdateKeepsKinds(e: seq<Node>, family: string, values: Fields)
    ensures AllEntries(Updated(e, family, values)) <==> AllEntries(e)
  {
    var u := Updated(e, family, values);
    assert |u| == |e| && forall i :: 0 <= i < |e| ==> (u[i].Entry? <==> e[i].Entry?);
  }

  function Moves(e: seq<Node>, p: Plan): seq<Node>
    requires AllEntries(e)
  {
    match p.mode
    case WaitingForMedia => Upserted(e, MEDIA, p.media)
    case ReadyToBoot => RemovedKeepsKinds(e, MEDIA); Promoted(Removed(e, MEDIA), SUCCESS)
    case FlashEligible => RemovedKeepsKinds(e, MEDIA); Promoted(Removed(e, MEDIA), AUTHORIZATION)
    case Blocked => Removed(e, MEDIA)
  }

  lemma RemovedKeepsKinds(e: seq<Node>, family: string)
    requires AllEntries(e)
    ensures AllEntries(Removed(e, family))
  {}

  function ProjectedEntries(e: seq<Node>, p: Plan): seq<Node>
    requires AllEntries(e)
  {
    UpdatesKeepKinds(e, p);
    Moves(ThreeUpdates(e, p), p)
  }

  function ProjectedInputs(inputs: Listing, p: Plan): Listing
    requires inputs.Absent? || (inputs.Listed? && AllEntries(inputs.entries))
  {
    match inputs
    case Absent => if p.mode == WaitingForMedia then Listed(Upserted([], MEDIA, p.media)) else Absent
    case NotAList => inputs
    case Listed(e) => Listed(ProjectedEntries(e, p))
  }

  function ProjectedOutcomes(outcomes: Listing, p: Plan): Listing {
    if outcomes.Listed? then Listed(TopUpdated(outcomes.entries, p.top)) else outcomes
  }

  // ---- Idempotence ----------------------------------------------------------------------------

  ghost predicate IsFirst(e: seq<Node>, family: string, i: int) {
    0 <= i < |e| && IsOf(e[i], family) && forall j :: 0 <= j < i ==> !IsOf(e[j], family)
  }

  /** The entry the update would reach has the values already, if there is one. */
  ghost predicate Has(e: seq<Node>, family: string, values: Fields) {
    forall i :: IsFirst(e, family, i) ==> e[i].fields + values == e[i].fields
  }

  ghost predicate IsRanked(e: seq<Node>) {
    forall i :: 0 <= i < |e| ==> e[i].Entry? && e[i].rank == Number(i + 1)
  }

  lemma UpdateEstablishes(e: seq<Node>, family: string, values: Fields)
    ensures Has(Updated(e, family, values), family, values)
  {
    var u := Updated(e, family, values);
    match FirstOf(e, family)
    case None =>
    case Some(i) =>
      forall k | IsFirst(u, family, k)
        ensures u[k].fields + values == u[k].fields
      {
        assert IsOf(u[i], family) && forall j :: 0 <= j < i ==> u[j] == e[j];
      }
  }

  lemma UpdateOtherKeeps(e: seq<Node>, other: string, more: Fields, family: string, values: Fields)
    requires Has(e, family, values) && other != family
    ensures Has(Updated(e, other, more), family, values)
  {
    var u := Updated(e, other, more);
    forall k | IsFirst(u, family, k)
      ensures u[k].fields + values == u[k].fields
    {
      assert forall j :: 0 <= j < |e| ==> (IsOf(u[j], family) <==> IsOf(e[j], family));
      assert IsFirst(e, family, k);
    }
  }

  lemma UpdateIsNoop(e: seq<Node>, family: string, values: Fields)
    requires Has(e, family, values)
    ensures Updated(e, family, values) == e
  {
    match FirstOf(e, family)
    case None =>
    case Some(i) => assert IsFirst(e, family, i);
  }

  lemma RankedKeeps(e: seq<Node>, family: string, values: Fields)
    requires AllEntries(e) && Has(e, family, values)
    ensures Has(Ranked(e), family, values) && IsRanked(Ranked(e))
  {
    forall k | IsFirst(Ranked(e), family, k)
      ensures Ranked(e)[k].fields + values == Ranked(e)[k].fields
    {
      assert forall j :: 0 <= j < |e| ==> (IsOf(Ranked(e)[j], family) <==> IsOf(e[j], family));
      assert IsFirst(e, family, k);
    }
  }

  lemma ToFrontKeeps(e: seq<Node>, i: nat, moved: string, family: string, values: Fields)
    requires IsFirst(e, moved, i) && Has(e, family, values)
    ensures Has(ToFront(e, i), family, values)
  {
    var t := ToFront(e, i);
    forall k | IsFirst(t, family, k)
      ensures t[k].fields + values == t[k].fields
    {
      if k == 0 {
        if family == moved { assert IsFirst(e, family, i); }
      } else {
        var from := if k <= i then k - 1 else k;
        assert t[k] == e[from];
        assert !IsOf(e[i], family) by { assert t[0] == e[i]; }
        forall j | 0 <= j < from
          ensures !IsOf(e[j], family)
        {
          if j < i { assert t[j + 1] == e[j]; } else if j > i { assert t[j] == e[j]; }
        }
        assert IsFirst(e, family, from);
      }
    }
  }

  lemma {:induction false} WithoutKeeps(e: seq<Node>, gone: string, family: string, values: Fields)
    requires Has(e, family, values) && gone != family
    ensures Has(Without(e, gone), family, values)
  {
    if e != [] {
      var w := Without(e, gone);
      if IsOf(e[0], family) {
        assert IsFirst(e, family, 0);
        assert w[0] == e[0];
      } else {
        forall k | IsFirst(e[1..], family, k)
          ensures e[1..][k].fields + values == e[1..][k].fields
        {
          assert forall j :: 1 <= j < |e| ==> e[j] == e[1..][j - 1];
          assert IsFirst(e, family, k + 1);
        }
        WithoutKeeps(e[1..], gone, family, values);
        if IsOf(e[0], gone) {
          assert w == Without(e[1..], gone);
        } else {
          ConsKeeps(e[0], Without(e[1..], gone), family, values);
        }
      }
    }
  }

  lemma ConsKeeps(n: Node, e: seq<Node>, family: string, values: Fields)
    requires Has(e, family, values) && !IsOf(n, family)
    ensures Has([n] + e, family, values)
  {
    var longer := [n] + e;
    assert longer[0] == n && forall j :: 0 <= j < |e| ==> longer[j + 1] == e[j];
    forall k | IsFirst(longer, family, k)
      ensures longer[k].fields + values == longer[k].fields
    {
      assert k > 0;
      assert IsFirst(e, family, k - 1);
    }
  }

  lemma {:induction false} WithoutLength(e: seq<Node>, family: string)
    ensures |Without(e, family)| <= |e|
    ensures |Without(e, family)| == |e| <==> FirstOf(e, family).None?
    ensures |Without(e, family)| == |e| ==> Without(e, family) == e
  {
    if e != [] {
      WithoutLength(e[1..], family);
      assert e == [e[0]] + e[1..];
    }
  }

  lemma RemovedKeeps(e: seq<Node>, gone: string, family: string, values: Fields)
    requires AllEntries(e) && Has(e, family, values) && gone != family
    ensures Has(Removed(e, gone), family, values)
  {
    WithoutKeeps(e, gone, family, values);
    if |Without(e, gone)| != |e| { RankedKeeps(Without(e, gone), family, values); }
  }

  lemma RemovedIsGone(e: seq<Node>, family: string)
    requires AllEntries(e)
    ensures FirstOf(Removed(e, family), family).None?
    ensures AllEntries(Removed(e, family))
  {
    WithoutLength(e, family);
    var w := Without(e, family);
    if |w| != |e| {
      forall i | 0 <= i < |w|
        ensures !IsOf(Ranked(w)[i], family)
      {
        assert w[i] in w;
      }
    }
  }

  lemma PromotedKeeps(e: seq<Node>, moved: string, family: string, values: Fields)
    requires AllEntries(e) && Has(e, family, values)
    ensures Has(Promoted(e, moved), family, values)
  {
    match FirstOf(e, moved)
    case None =>
    case Some(i) =>
      ToFrontKeeps(e, i, moved, family, values);
      RankedKeeps(ToFront(e, i), family, values);
  }

  /** In front, with every rank its position. */
  ghost predicate Leads(e: seq<Node>, family: string) {
    AllEntries(e) && IsRanked(e) && e != [] && IsOf(e[0], family)
  }

  lemma PromotedLeads(e: seq<Node>, family: string)
    requires AllEntries(e)
    ensures FirstOf(e, family).None? ==> Promoted(e, family) == e
    ensures FirstOf(e, family).Some? ==> Leads(Promoted(e, family), family)
  {}

  lemma LeadingStays(e: seq<Node>, family: string)
    requires Leads(e, family)
    ensures FirstOf(e, family) == Some(0) && Promoted(e, family) == e
  {
    FirstIs(e, family, 0);
    assert ToFront(e, 0) == e;
    assert Ranked(e) == e;
  }

  lemma PromotedKeepsAbsence(e: seq<Node>, moved: string, family: string)
    requires AllEntries(e) && FirstOf(e, family).None?
    ensures FirstOf(Promoted(e, moved), family).None?
  {
    match FirstOf(e, moved)
    case None =>
    case Some(i) =>
      var r := Promoted(e, moved);
      forall k | 0 <= k < |r|
        ensures !IsOf(r[k], family)
      {
        assert !IsOf(ToFront(e, i)[k], family);
      }
  }

  lemma UpsertedKeeps(e: seq<Node>, added: string, more: Fields, family: string, values: Fields)
    requires AllEntries(e) && Has(e, family, values) && added != family
    ensures Has(Upserted(e, added, more), family, values)
  {
    var node := Entry(Some(added), NoRank, map[]);
    var grown := if FirstOf(e, added).None? then e + [node] else e;
    FoundAfterAppend(e, added);
    forall k | IsFirst(grown, family, k)
      ensures grown[k].fields + values == grown[k].fields
    {
      assert k < |e|;
      assert forall j :: 0 <= j < |e| ==> grown[j] == e[j];
      assert IsFirst(e, family, k);
    }
    var i := FirstOf(grown, added).value;
    UpdateOtherKeeps(grown, added, more, family, values);
    var merged := Updated(grown, added, more);
    FirstIs(merged, added, i);
    ToFrontKeeps(merged, i, added, family, values);
    RankedKeeps(ToFront(merged, i), family, values);
  }

  lemma UpsertedLeads(e: seq<Node>, added: string, more: Fields)
    requires AllEntries(e)
    ensures Leads(Upserted(e, added, more), added) && Has(Upserted(e, added, more), added, more)
  {
    FoundAfterAppend(e, added);
    var u := Upserted(e, added, more);
    FirstIs(u, added, 0);
    assert u[0].fields + more == u[0].fields;
    forall k | IsFirst(u, added, k)
      ensures k == 0
    {}
  }

  lemma UpsertIsNoop(e: seq<Node>, added: string, more: Fields)
    requires Leads(e, added) && Has(e, added, more)
    ensures Upserted(e, added, more) == e
  {
    LeadingStays(e, added);
    assert IsFirst(e, added, 0);
    assert e[0 := Merge(e[0], more)] == e;
    assert ToFront(e, 0) == e && Ranked(e) == e;
  }

  ghost predicate HasThree(e: seq<Node>, p: Plan) {
    Has(e, AUTHORIZATION, p.authorization) && Has(e, STATUS, p.status) && Has(e, GENERIC, p.generic)
  }

  lemma ThreeUpdatesEstablish(e: seq<Node>, p: Plan)
    ensures HasThree(ThreeUpdates(e, p), p)
  {
    var e1 := Updated(e, AUTHORIZATION, p.authorization);
    var e2 := Updated(e1, STATUS, p.status);
    UpdateEstablishes(e, AUTHORIZATION, p.authorization);
    UpdateEstablishes(e1, STATUS, p.status);
    UpdateEstablishes(e2, GENERIC, p.generic);
    UpdateOtherKeeps(e1, STATUS, p.status, AUTHORIZATION, p.authorization);
    UpdateOtherKeeps(e2, GENERIC, p.generic, AUTHORIZATION, p.authorization);
    UpdateOtherKeeps(e2, GENERIC, p.generic, STATUS, p.status);
  }

  lemma ThreeUpdatesNoop(e: seq<Node>, p: Plan)
    requires HasThree(e, p)
    ensures ThreeUpdates(e, p) == e
  {
    UpdateIsNoop(e, AUTHORIZATION, p.authorization);
    UpdateIsNoop(e, STATUS, p.status);
    UpdateIsNoop(e, GENERIC, p.generic);
  }

  /** What a projection leaves behind in each mode. */
  ghost predicate Settled(e: seq<Node>, p: Plan) {
    && AllEntries(e) && HasThree(e, p)
    && (p.mode == WaitingForMedia ==> Leads(e, MEDIA) && Has(e, MEDIA, p.media))
    && (p.mode != WaitingForMedia ==> FirstOf(e, MEDIA).None?)
    && (p.mode == ReadyToBoot ==> FirstOf(e, SUCCESS).None? || Leads(e, SUCCESS))
    && (p.mode == FlashEligible ==> FirstOf(e, AUTHORIZATION).None? || Leads(e, AUTHORIZATION))
  }

  lemma RemovedKeepsThree(e: seq<Node>, p: Plan)
    requires AllEntries(e) && HasThree(e, p)
    ensures AllEntries(Removed(e, MEDIA)) && HasThree(Removed(e, MEDIA), p) && FirstOf(Removed(e, MEDIA), MEDIA).None?
  {
    RemovedKeeps(e, MEDIA, AUTHORIZATION, p.authorization);
    RemovedKeeps(e, MEDIA, STATUS, p.status);
    RemovedKeeps(e, MEDIA, GENERIC, p.generic);
    RemovedIsGone(e, MEDIA);
  }

  lemma PromotedKeepsThree(e: seq<Node>, family: string, p: Plan)
    requires AllEntries(e) && HasThree(e, p) && FirstOf(e, MEDIA).None?
    ensures AllEntries(Promoted(e, family)) && HasThree(Promoted(e, family), p)
    ensures FirstOf(Promoted(e, family), MEDIA).None?
    ensures FirstOf(Promoted(e, family), family).None? || Leads(Promoted(e, family), family)
  {
    PromotedKeeps(e, family, AUTHORIZATION, p.authorization);
    PromotedKeeps(e, family, STATUS, p.status);
    PromotedKeeps(e, family, GENERIC, p.generic);
    PromotedKeepsAbsence(e, family, MEDIA);
    PromotedLeads(e, family);
  }

  lemma UpsertedKeepsThree(e: seq<Node>, p: Plan)
    requires AllEntries(e) && HasThree(e, p)
    ensures HasThree(Upserted(e, MEDIA, p.media), p)
    ensures Leads(Upserted(e, MEDIA, p.media), MEDIA) && Has(Upserted(e, MEDIA, p.media), MEDIA, p.media)
  {
    UpsertedKeeps(e, MEDIA, p.media, AUTHORIZATION, p.authorization);
    UpsertedKeeps(e, MEDIA, p.media, STATUS, p.status);
    UpsertedKeeps(e, MEDIA, p.media, GENERIC, p.generic);
    UpsertedLeads(e, MEDIA, p.media);
  }

  lemma ProjectionSettles(e: seq<Node>, p: Plan)
    requires AllEntries(e)
    ensures Settled(ProjectedEntries(e, p), p)
  {
    UpdatesKeepKinds(e, p);
    ThreeUpdatesEstablish(e, p);
    var u := ThreeUpdates(e, p);
    RemovedKeepsThree(u, p);
    match p.mode
    case WaitingForMedia => UpsertedKeepsThree(u, p);
    case ReadyToBoot => PromotedKeepsThree(Removed(u, MEDIA), SUCCESS, p);
    case FlashEligible => PromotedKeepsThree(Removed(u, MEDIA), AUTHORIZATION, p);
    case Blocked =>
  }

  lemma SettledStays(e: seq<Node>, p: Plan)
    requires Settled(e, p)
    ensures ProjectedEntries(e, p) == e
  {
    ThreeUpdatesNoop(e, p);
    WithoutLength(e, MEDIA);
    match p.mode
    case WaitingForMedia => UpsertIsNoop(e, MEDIA, p.media);
    case ReadyToBoot => if FirstOf(e, SUCCESS).Some? { LeadingStays(e, SUCCESS); }
    case FlashEligible => if FirstOf(e, AUTHORIZATION).Some? { LeadingStays(e, AUTHORIZATION); }
    case Blocked =>
  }

  lemma TopUpdateIdempotent(e: seq<Node>, values: Fields)
    ensures TopUpdated(TopUpdated(e, values), values) == TopUpdated(e, values)
  {
    match TopOf(e)
    case None =>
    case Some(i) =>
      var u := TopUpdated(e, values);
      assert forall j :: 0 <= j < |e| ==> RankOf(u[j]) == RankOf(e[j]) && (u[j].Entry? <==> e[j].Entry?);
      var k := TopOf(u).value;
      assert k == i by {
        assert RankOf(u[k]) <= RankOf(u[i]) && RankOf(e[i]) <= RankOf(e[k]);
      }
      assert u[i].fields + values == u[i].fields;
  }

  /** Projecting the same evidence again changes nothing, whatever the branch looked like to begin with. */
  lemma ProjectionIsIdempotent(inputs: Listing, outcomes: Listing, p: Plan)
    requires Projectable(inputs, outcomes)
    ensures
      var once := ProjectedInputs(inputs, p);
      && Projectable(once, ProjectedOutcomes(outcomes, p))
      && ProjectedInputs(once, p) == once
      && ProjectedOutcomes(ProjectedOutcomes(outcomes, p), p) == ProjectedOutcomes(outcomes, p)
  {
    InputsIdempotent(inputs, p);
    if outcomes.Listed? {
      TopUpdateIdempotent(outcomes.entries, p.top);
      TopUpdateKeepsRanks(outcomes.entries, p.top);
    }
  }

  lemma InputsIdempotent(inputs: Listing, p: Plan)
    requires inputs.Absent? || (inputs.Listed? && AllEntries(inputs.entries))
    ensures
      var once := ProjectedInputs(inputs, p);
      && (once.Absent? || (once.Listed? && AllEntries(once.entries)))
      && ProjectedInputs(once, p) == once
  {
    if inputs.Listed? {
      ProjectionSettles(inputs.entries, p);
      SettledStays(ProjectedEntries(inputs.entries, p), p);
    } else if p.mode == WaitingForMedia {
      AbsentSettles(p);
      SettledStays(Upserted([], MEDIA, p.media), p);
    }
  }

  lemma TopUpdateKeepsRanks(e: seq<Node>, values: Fields)
    ensures RanksReadable(TopUpdated(e, values)) <==> RanksReadable(e)
  {
    var u := TopUpdated(e, values);
    assert |u| == |e| && forall i :: 0 <= i < |e| ==> (u[i].Entry? <==> e[i].Entry?);
    assert forall i :: 0 <= i < |e| && e[i].Entry? ==> u[i].rank == e[i].rank;
  }

  lemma AbsentSettles(p: Plan)
    requires p.mode == WaitingForMedia
    ensures Settled(Upserted([], MEDIA, p.media), p)
  {
    UpsertedKeepsThree([], p);
  }

  /** A list whose ranks are its positions keeps them so through every edit. */
  lemma ProjectionKeepsRanks(e: seq<Node>, p: Plan)
    requires IsRanked(e)
    ensures AllEntries(e) && IsRanked(ProjectedEntries(e, p))
  {
    UpdatesKeepKinds(e, p);
    UpdateKeepsRanks(e, AUTHORIZATION, p.authorization);
    var e1 := Updated(e, AUTHORIZATION, p.authorization);
    UpdateKeepsRanks(e1, STATUS, p.status);
    UpdateKeepsRanks(Updated(e1, STATUS, p.status), GENERIC, p.generic);
    var u := ThreeUpdates(e, p);
    match p.mode
    case WaitingForMedia => UpsertedLeads(u, MEDIA, p.media);
    case ReadyToBoot => PromotedLeads(Removed(u, MEDIA), SUCCESS);
    case FlashEligible => PromotedLeads(Removed(u, MEDIA), AUTHORIZATION);
    case Blocked =>
  }

  lemma UpdateKeepsRanks(e: seq<Node>, family: string, values: Fields)
    requires IsRanked(e)
    ensures IsRanked(Updated(e, family, values))
  {}
}
