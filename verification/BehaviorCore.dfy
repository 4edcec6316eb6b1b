/** The smsc95xx behaviour model and the generated C state core, in step over every trace. */
module BehaviorCore {
  import opened Common
  import P = PacketFraming

  /** How many values a `size_t` has. */
  const SIZE_RANGE := 0x1_0000_0000_0000_0000

  datatype Duplex = Half | Full | OtherDuplex

  // ---- The Python behaviour model -------------------------------------------------------------

  datatype Behavior = Behavior(
    identityVerified: bool, attached: bool, carrier: bool, speed: Option<int>, duplex: Option<Duplex>, rxChecksum: bool)

  datatype Identity = Identity(parentVendor: nat, parentProduct: nat, vendor: nat, product: nat)

  const EXPECTED := Identity(0x0424, 0x9514, 0x0424, 0xEC00)

  /** `None` in a field stands for a value of the wrong Python type. */
  datatype Action =
    | Identify(id: Identity)
    | Attach(driver: string)
    | Link(carrier: bool, speed: Option<int>, duplex: Duplex)
    | SetRxChecksum(enabled: Option<bool>)
    | TxPrepare(partial: Option<bool>, payload: int)
    | ForbiddenAction

  datatype Output = Accepted | FramedLength(length: nat)

  datatype BehaviorError = BadIdentity | AttachRefused | NotAttached | OutsideEnvelope | BadChecksumMode | NoCarrier | BadPayload | Forbidden

  function Overhead(partial: bool): nat { if partial then P.TX_OVERHEAD_CSUM else P.TX_OVERHEAD }

  /** `apply_action`. */
  function ApplyAction(s: Behavior, a: Action): Result<(Behavior, Output), BehaviorError> {
    match a
    case Identify(id) => if id == EXPECTED then Ok((s.(identityVerified := true), Accepted)) else Err(BadIdentity)
    case Attach(driver) =>
      if s.identityVerified && driver == "smsc95xx" then Ok((s.(attached := true), Accepted)) else Err(AttachRefused)
    case Link(carrier, speed, duplex) =>
      if !s.attached then Err(NotAttached)
      else if !carrier then Ok((s.(carrier := false, speed := None, duplex := None), Accepted))
      else if speed.None? || speed.value !in {10, 100} || duplex == OtherDuplex then Err(OutsideEnvelope)
      else Ok((s.(carrier := true, speed := speed, duplex := Some(duplex)), Accepted))
    case SetRxChecksum(enabled) =>
      if !s.attached then Err(NotAttached)
      else if enabled.None? then Err(BadChecksumMode)
      else Ok((s.(rxChecksum := enabled.value), Accepted))
    case TxPrepare(partial, payload) =>
      if !s.carrier then Err(NoCarrier)
      else if partial.None? then Err(BadChecksumMode)
      else if payload < 0 then Err(BadPayload)
      else Ok((s, FramedLength(payload + Overhead(partial.value))))
    case ForbiddenAction => Err(Forbidden)
  }

  const INITIAL := Behavior(false, false, false, None, None, true)

  /** A caller that survives exceptions: a rejected action leaves the frozen state as it was. */
  function Replay(s: Behavior, trace: seq<Action>): Behavior {
    if trace == [] then s
    else
      var before := Replay(s, trace[..|trace| - 1]);
      var r := ApplyAction(before, trace[|trace| - 1]);
      if r.Ok? then r.value.0 else before
  }

  /** Carrier implies identification, attachment, a proven speed and a proven duplex. */
  ghost predicate Sane(s: Behavior) {
    && (s.attached ==> s.identityVerified)
    && (s.carrier ==> s.attached && s.speed.Some? && s.speed.value in {10, 100} && s.duplex in {Some(Half), Some(Full)})
    && (!s.carrier ==> s.speed.None? && s.duplex.None?)
  }

  lemma {:induction false} ReplayIsSane(trace: seq<Action>)
    ensures Sane(Replay(INITIAL, trace))
  {
    if trace != [] { ReplayIsSane(trace[..|trace| - 1]); }
  }

  // ---- The generated C ------------------------------------------------------------------------

  datatype CState = CState(identityVerified: int, carrier: int, speed: nat, fullDuplex: int, rxChecksum: int)

  function CSetLink(c: CState, carrier: int, speed: nat, fullDuplex: int): (CState, int) {
    if c.identityVerified == 0 then (c, -1)
    else if carrier == 0 then (c.(carrier := 0, speed := 0, fullDuplex := 0), 0)
    else if speed != 10 && speed != 100 then (c, -2)
    else if fullDuplex != 0 && fullDuplex != 1 then (c, -3)
    else (c.(carrier := 1, speed := speed, fullDuplex := fullDuplex), 0)
  }

  function CSetRxChecksum(c: CState, enabled: int): (CState, int) {
    if c.identityVerified == 0 then (c, -1)
    else if enabled != 0 && enabled != 1 then (c, -2)
    else (c.(rxChecksum := enabled), 0)
  }

  /** `size_t` arithmetic wraps; zero is also the refusal. */
  function CTxFrameLen(c: CState, payload: nat, partial: int): nat {
    if c.identityVerified == 0 || c.carrier == 0 then 0
    else if partial != 0 && partial != 1 then 0
    else (payload + Overhead(partial != 0)) % SIZE_RANGE
  }

  /** `aurum_smsc95xx_state`, updated in place; the pointer is never null. */
  class ShadowState {
    var identityVerified: int
    var carrier: int
    var speed: nat
    var fullDuplex: int
    var rxChecksum: int

    function View(): CState
      reads this
    {
      CState(identityVerified, carrier, speed, fullDuplex, rxChecksum)
    }

    method Init(id: Identity) returns (rc: int)
      modifies this
      ensures rc == if id == EXPECTED then 0 else -2
      ensures View() == if rc == 0 then CState(1, 0, 0, 0, 1) else old(View())
    {
      if id != EXPECTED {
        return -2;
      }
      identityVerified := 1;
      carrier := 0;
      speed := 0;
      fullDuplex := 0;
      rxChecksum := 1;
      rc := 0;
    }

    method SetLink(newCarrier: int, newSpeed: nat, newDuplex: int) returns (rc: int)
      modifies this
      ensures (View(), rc) == CSetLink(old(View()), newCarrier, newSpeed, newDuplex)
    {
      if identityVerified == 0 {
        return -1;
      }
      if newCarrier == 0 {
        carrier := 0;
        speed := 0;
        fullDuplex := 0;
        return 0;
      }
      if newSpeed != 10 && newSpeed != 100 {
        return -2;
      }
      if newDuplex != 0 && newDuplex != 1 {
        return -3;
      }
      carrier := 1;
      speed := newSpeed;
      fullDuplex := newDuplex;
      rc := 0;
    }

    method SetRxChecksum(enabled: int) returns (rc: int)
      modifies this
      ensures (View(), rc) == CSetRxChecksum(old(View()), enabled)
    {
      if identityVerified == 0 {
        return -1;
      }
      if enabled != 0 && enabled != 1 {
        return -2;
      }
      rxChecksum := enabled;
      rc := 0;
    }

    method TxFrameLen(payload: nat, partial: int) returns (length: nat)
      requires payload < SIZE_RANGE
      ensures length == CTxFrameLen(View(), payload, partial)
    {
      if identityVerified == 0 || carrier == 0 {
        return 0;
      }
      if partial != 0 && partial != 1 {
        return 0;
      }
      length := (payload + if partial != 0 then P.TX_OVERHEAD_CSUM else P.TX_OVERHEAD) % SIZE_RANGE;
    }
  }

  // ---- Simulation -----------------------------------------------------------------------------

  function DuplexCode(d: Duplex): int { match d case Half => 0 case Full => 1 case OtherDuplex => 2 }

  /** The speed as the C sees it: the host passes it as `c_uint`, which wraps. */
  function SpeedCode(speed: Option<int>): nat { if speed.Some? then speed.value % P.UINT32 else 0 }

  /** A speed that wraps round to one the C knows. */
  predicate Misread(speed: Option<int>) { speed.Some? && speed.value != SpeedCode(speed) && SpeedCode(speed) in {10, 100} }

  function BoolCode(b: Option<bool>): int { match b case None => 2 case Some(x) => if x then 1 else 0 }

  /** The C state that stands for a Python state. */
  ghost predicate Mirrors(c: CState, s: Behavior) {
    && s.identityVerified && s.attached && c.identityVerified == 1
    && c.carrier == (if s.carrier then 1 else 0)
    && c.speed == (if s.speed.Some? && s.speed.value >= 0 then s.speed.value else 0)
    && c.fullDuplex == (if s.duplex == Some(Full) then 1 else 0)
    && c.rxChecksum == (if s.rxChecksum then 1 else 0)
  }

  /** The actions both sides offer, with payloads a `size_t` can hold and speeds that are not misread. */
  predicate Shared(a: Action) {
    match a
    case Link(_, speed, _) => !Misread(speed)
    case SetRxChecksum(_) => true
    case TxPrepare(_, payload) => 0 <= payload < SIZE_RANGE
    case _ => false
  }

  /** The C call a host makes for an action: the new state, and whether it was accepted. */
  function CApply(c: CState, a: Action): (CState, bool)
    requires a.Link? || Shared(a)
  {
    match a
    case Link(carrier, speed, duplex) =>
      var (after, rc) := CSetLink(c, if carrier then 1 else 0, SpeedCode(speed), DuplexCode(duplex)); (after, rc == 0)
    case SetRxChecksum(enabled) => var (after, rc) := CSetRxChecksum(c, BoolCode(enabled)); (after, rc == 0)
    case TxPrepare(partial, payload) => (c, CTxFrameLen(c, payload, BoolCode(partial)) != 0)
  }

  function CReplay(c: CState, trace: seq<Action>): CState
    requires forall i :: 0 <= i < |trace| ==> Shared(trace[i])
  {
    if trace == [] then c else CApply(CReplay(c, trace[..|trace| - 1]), trace[|trace| - 1]).0
  }

  predicate Fits(a: Action) {
    a.TxPrepare? && a.partial.Some? ==> a.payload + Overhead(a.partial.value) < SIZE_RANGE
  }

  /** A length that wraps to exactly zero reads as the C's refusal. */
  predicate WrapsToZero(a: Action) {
    a.TxPrepare? && a.partial.Some? && a.payload + Overhead(a.partial.value) == SIZE_RANGE
  }

  /** One action: the states stay in step, the answers are the same unless a length wraps, and a rejection changes nothing. */
  lemma StepInStep(c: CState, s: Behavior, a: Action)
    requires Mirrors(c, s) && Sane(s) && Shared(a)
    ensures Sane(if ApplyAction(s, a).Ok? then ApplyAction(s, a).value.0 else s)
    ensures Mirrors(CApply(c, a).0, if ApplyAction(s, a).Ok? then ApplyAction(s, a).value.0 else s)
    ensures ApplyAction(s, a).Err? ==> CApply(c, a) == (c, false)
    ensures CApply(c, a).1 == ApplyAction(s, a).Ok? <==> !(ApplyAction(s, a).Ok? && WrapsToZero(a))
    ensures a.TxPrepare? && ApplyAction(s, a).Ok? ==>
              (ApplyAction(s, a).value.1 == FramedLength(CTxFrameLen(c, a.payload, BoolCode(a.partial))) <==> Fits(a))
  {}

  /** The wrap-around case is the only one in which the framed lengths part. */
  lemma LengthsAgreeIffFits(c: CState, s: Behavior, partial: bool, payload: nat)
    requires Mirrors(c, s) && s.carrier && payload < SIZE_RANGE
    ensures ApplyAction(s, TxPrepare(Some(partial), payload)).Ok?
    ensures ApplyAction(s, TxPrepare(Some(partial), payload)).value.1
            == FramedLength(CTxFrameLen(c, payload, if partial then 1 else 0))
            <==> Fits(TxPrepare(Some(partial), payload))
  {}

  /** A misread speed is the only one on which a link action is answered differently. */
  lemma LinkAgreesIff(c: CState, s: Behavior, carrier: bool, speed: Option<int>, duplex: Duplex)
    requires Mirrors(c, s)
    ensures
      var a := Link(carrier, speed, duplex);
      CApply(c, a).1 == ApplyAction(s, a).Ok? <==> !(carrier && Misread(speed) && duplex != OtherDuplex)
  {}

  /** A speed of 2^32 + 10: refused by the Python, accepted as 10 by the C. */
  lemma WideSpeedParts(c: CState, s: Behavior, speed: int)
    requires Mirrors(c, s) && speed == P.UINT32 + 10
    ensures ApplyAction(s, Link(true, Some(speed), Full)).Err?
    ensures CApply(c, Link(true, Some(speed), Full)) == (c.(carrier := 1, speed := 10, fullDuplex := 1), true)
  {}

  /** After one link-up, the largest payload a `size_t` can hold: the Python frames eight bytes more, the C answers 7. */
  lemma WrappedLengthsPart(link: Action, send: Action)
    requires link == Link(true, Some(100), Full) && send == TxPrepare(Some(false), SIZE_RANGE - 1)
    ensures
      var s := Replay(INITIAL, [Identify(EXPECTED), Attach("smsc95xx"), link]);
      var c := CReplay(CState(1, 0, 0, 0, 1), [link]);
      && Mirrors(c, s) && CApply(c, send).1
      && ApplyAction(s, send) == Ok((s, FramedLength(SIZE_RANGE + 7))) && CTxFrameLen(c, send.payload, 0) == 7
  {
    LinkedStart(link);
  }

  /** And a payload that wraps to exactly zero is refused by the C and framed by the Python. */
  lemma WrapToZeroIsRefused(link: Action, send: Action)
    requires link == Link(true, Some(100), Full) && send == TxPrepare(Some(false), SIZE_RANGE - P.TX_OVERHEAD)
    ensures
      var s := Replay(INITIAL, [Identify(EXPECTED), Attach("smsc95xx"), link]);
      var c := CReplay(CState(1, 0, 0, 0, 1), [link]);
      && Mirrors(c, s) && !CApply(c, send).1
      && ApplyAction(s, send) == Ok((s, FramedLength(SIZE_RANGE)))
  {
    LinkedStart(link);
  }

  lemma LinkedStart(link: Action)
    requires link == Link(true, Some(100), Full)
    ensures Replay(INITIAL, [Identify(EXPECTED), Attach("smsc95xx"), link])
            == Behavior(true, true, true, Some(100), Some(Full), true)
    ensures CReplay(CState(1, 0, 0, 0, 1), [link]) == CState(1, 1, 100, 1, 1)
  {
    var start := [Identify(EXPECTED), Attach("smsc95xx"), link];
    MatchedStart();
    assert start[..2] == [Identify(EXPECTED), Attach("smsc95xx")];
    assert [link][..0] == [];
    assert CReplay(CState(1, 0, 0, 0, 1), []) == CState(1, 0, 0, 0, 1);
  }

  lemma MatchedStart()
    ensures Replay(INITIAL, [Identify(EXPECTED), Attach("smsc95xx")]) == INITIAL.(identityVerified := true, attached := true)
  {
    var start := [Identify(EXPECTED), Attach("smsc95xx")];
    assert start[..1] == [Identify(EXPECTED)] && start[..1][..0] == [];
    assert Replay(INITIAL, start[..1]) == INITIAL.(identityVerified := true);
  }

  /** The two replays at one position: in step before the action, and alike in what they answer to it. */
  ghost predicate AlikeAt(c: CState, s: Behavior, trace: seq<Action>, i: nat)
    requires i < |trace| && forall k :: 0 <= k < |trace| ==> Shared(trace[k])
  {
    var ci, si, a := CReplay(c, trace[..i]), Replay(s, trace[..i]), trace[i];
    && Mirrors(ci, si) && Sane(si)
    && (CApply(ci, a).1 == ApplyAction(si, a).Ok? <==> !(ApplyAction(si, a).Ok? && WrapsToZero(a)))
    && (ApplyAction(si, a).Err? ==> CApply(ci, a) == (ci, false))
    && (a.TxPrepare? && ApplyAction(si, a).Ok? ==>
          (ApplyAction(si, a).value.1 == FramedLength(CTxFrameLen(ci, a.payload, BoolCode(a.partial))) <==> Fits(a)))
  }

  lemma {:induction false} ReplayInStep(c: CState, s: Behavior, trace: seq<Action>)
    requires Mirrors(c, s) && Sane(s) && forall i :: 0 <= i < |trace| ==> Shared(trace[i])
    ensures Mirrors(CReplay(c, trace), Replay(s, trace)) && Sane(Replay(s, trace))
    ensures forall i :: 0 <= i < |trace| ==> AlikeAt(c, s, trace, i)
  {
    if trace != [] {
      var n := |trace| - 1;
      ReplayInStep(c, s, trace[..n]);
      StepInStep(CReplay(c, trace[..n]), Replay(s, trace[..n]), trace[n]);
      forall i | 0 <= i < |trace|
        ensures AlikeAt(c, s, trace, i)
      {
        if i < n {
          assert AlikeAt(c, s, trace[..n], i);
          assert trace[..n][..i] == trace[..i];
        }
      }
    }
  }

  /**
   * From a matched start (C init; Python identify and attach), every trace of any length: at each position the
   * states are in step, the acceptances agree unless a framed length wraps to zero, the lengths agree exactly
   * when they do not wrap, and a rejection leaves both states as they were.
   */
  lemma CoreFollowsModel(trace: seq<Action>)
    requires forall i :: 0 <= i < |trace| ==> Shared(trace[i])
    ensures
      var s := Replay(INITIAL, [Identify(EXPECTED), Attach("smsc95xx")]);
      && Mirrors(CReplay(CState(1, 0, 0, 0, 1), trace), Replay(s, trace))
      && forall i :: 0 <= i < |trace| ==> AlikeAt(CState(1, 0, 0, 0, 1), s, trace, i)
  {
    var start := [Identify(EXPECTED), Attach("smsc95xx")];
    MatchedStart();
    ReplayInStep(CState(1, 0, 0, 0, 1), Replay(INITIAL, start), trace);
  }
}
