/** One bounded virtual USB transfer: the simulator, its oracle, and the closed form both compute. */
module BoundedTransfer {
  import opened Common

  datatype Fault = Success | Timeout | IoError | Stall | ShortTransfer | Disconnect

  datatype Terminal = Delivered | Disconnected | ShortTransferQuarantined | RetryBudgetExhausted | EvidenceExhausted

  datatype Report = Report(terminal: Terminal, attempts: nat, retriesUsed: nat, clearHaltIntents: nat, trace: seq<Fault>)

  datatype RequestError = BadDirection | BadBudget | NoOutcomes

  predicate Retryable(f: Fault) { f == Timeout || f == IoError || f == Stall }

  /** `_validate_request`; unknown outcomes are excluded by the type. */
  function Validation(direction: string, outcomes: seq<Fault>, budget: int): Option<RequestError> {
    if direction !in {"tx", "rx"} then Some(BadDirection)
    else if !(0 <= budget <= 8) then Some(BadBudget)
    else if outcomes == [] then Some(NoOutcomes)
    else None
  }

  // ---- The closed form ------------------------------------------------------------------------

  /** Outcome `k` ends the transfer: it is final in itself, or it comes when the budget is spent. */
  ghost predicate DecidedAt(outcomes: seq<Fault>, budget: nat, k: nat) {
    && k < |outcomes| && k <= budget
    && (!Retryable(outcomes[k]) || k == budget)
    && forall j :: 0 <= j < k ==> Retryable(outcomes[j])
  }

  function Stalls(outcomes: seq<Fault>): nat {
    if outcomes == [] then 0
    else Stalls(outcomes[..|outcomes| - 1]) + if outcomes[|outcomes| - 1] == Stall then 1 else 0
  }

  function TerminalOf(f: Fault): Terminal {
    match f
    case Success => Delivered
    case Disconnect => Disconnected
    case ShortTransfer => ShortTransferQuarantined
    case _ => RetryBudgetExhausted
  }

  function DecidedReport(outcomes: seq<Fault>, k: nat): Report
    requires k < |outcomes|
  {
    Report(TerminalOf(outcomes[k]), k + 1, k, Stalls(outcomes[..k + 1]), outcomes[..k + 1])
  }

  function UndecidedReport(outcomes: seq<Fault>): Report {
    Report(EvidenceExhausted, |outcomes|, |outcomes|, Stalls(outcomes), outcomes)
  }

  /** What the transfer must come to, with no reference to how it is computed. */
  ghost predicate Explains(r: Report, outcomes: seq<Fault>, budget: nat) {
    || (exists k: nat :: DecidedAt(outcomes, budget, k) && r == DecidedReport(outcomes, k))
    || (r == UndecidedReport(outcomes) && forall k :: 0 <= k < |outcomes| ==> Retryable(outcomes[k]) && k < budget)
  }

  lemma StallsGrow(outcomes: seq<Fault>, n: nat)
    requires n < |outcomes|
    ensures Stalls(outcomes[..n + 1]) == Stalls(outcomes[..n]) + if outcomes[n] == Stall then 1 else 0
  {
    assert outcomes[..n + 1][..n] == outcomes[..n];
  }

  /** `simulate_transfer`. */
  method SimulateTransfer(direction: string, outcomes: seq<Fault>, budget: int) returns (r: Result<Report, RequestError>)
    ensures r.Err? <==> Validation(direction, outcomes, budget).Some?
    ensures r.Err? ==> Validation(direction, outcomes, budget) == Some(r.error)
    ensures r.Ok? ==> Explains(r.value, outcomes, budget)
  {
    var problem := Validation(direction, outcomes, budget);
    if problem.Some? {
      return Err(problem.value);
    }
    var attempts, retriesUsed, intents := 0, 0, 0;
    var trace: seq<Fault> := [];
    var n := 0;
    while n < |outcomes|
      invariant 0 <= n <= |outcomes| && n <= budget
      invariant attempts == retriesUsed == n && trace == outcomes[..n] && intents == Stalls(outcomes[..n])
      invariant forall j :: 0 <= j < n ==> Retryable(outcomes[j])
    {
      var outcome := outcomes[n];
      StallsGrow(outcomes, n);
      attempts := attempts + 1;
      trace := trace + [outcome];
      if outcome == Success {
        assert DecidedAt(outcomes, budget, n);
        return Ok(Report(Delivered, attempts, retriesUsed, intents, trace));
      }
      if outcome == Disconnect {
        assert DecidedAt(outcomes, budget, n);
        return Ok(Report(Disconnected, attempts, retriesUsed, intents, trace));
      }
      if outcome == ShortTransfer {
        assert DecidedAt(outcomes, budget, n);
        return Ok(Report(ShortTransferQuarantined, attempts, retriesUsed, intents, trace));
      }
      if outcome == Stall {
        intents := intents + 1;
      }
      if retriesUsed >= budget {
        assert DecidedAt(outcomes, budget, n);
        return Ok(Report(RetryBudgetExhausted, attempts, retriesUsed, intents, trace));
      }
      retriesUsed := retriesUsed + 1;
      n := n + 1;
    }
    assert outcomes[..n] == outcomes;
    r := Ok(Report(EvidenceExhausted, attempts, retriesUsed, intents, trace));
  }

  /** The part of a report that the oracle gives. */
  datatype Verdict = Verdict(terminal: Terminal, delivered: bool, quarantined: bool, attempts: nat, retries: nat, stalls: nat)

  function VerdictOf(r: Report): Verdict {
    Verdict(r.terminal, r.terminal == Delivered, r.terminal != Delivered, r.attempts, r.retriesUsed, r.clearHaltIntents)
  }

  /** `_oracle`, on requests that validate. */
  method Oracle(outcomes: seq<Fault>, budget: nat) returns (v: Verdict)
    ensures forall r :: Explains(r, outcomes, budget) ==> v == VerdictOf(r)
  {
    var retries, stalls := 0, 0;
    var n := 0;
    while n < |outcomes|
      invariant 0 <= n <= |outcomes| && n <= budget && retries == n && stalls == Stalls(outcomes[..n])
      invariant forall j :: 0 <= j < n ==> Retryable(outcomes[j])
    {
      var outcome := outcomes[n];
      StallsGrow(outcomes, n);
      if outcome == Success {
        return Verdict(Delivered, true, false, n + 1, retries, stalls);
      }
      if outcome == Disconnect {
        return Verdict(Disconnected, false, true, n + 1, retries, stalls);
      }
      if outcome == ShortTransfer {
        return Verdict(ShortTransferQuarantined, false, true, n + 1, retries, stalls);
      }
      stalls := stalls + if outcome == Stall then 1 else 0;
      if retries >= budget {
        return Verdict(RetryBudgetExhausted, false, true, n + 1, retries, stalls);
      }
      retries := retries + 1;
      n := n + 1;
    }
    assert outcomes[..n] == outcomes;
    v := Verdict(EvidenceExhausted, false, true, |outcomes|, retries, stalls);
  }

  /** Every request has exactly one explanation, so simulator and oracle agree on all of them. */
  lemma ReportIsUnique(outcomes: seq<Fault>, budget: nat, r: Report, r': Report)
    requires Explains(r, outcomes, budget) && Explains(r', outcomes, budget)
    ensures r == r'
  {
    if k: nat :| DecidedAt(outcomes, budget, k) {
    } else {
    }
  }

  // ---- What follows for callers ---------------------------------------------------------------

  /** Delivered exactly when some success, no later than the budget allows, has only retryable outcomes before it. */
  lemma DeliveredIff(outcomes: seq<Fault>, budget: nat, r: Report)
    requires Explains(r, outcomes, budget)
    ensures r.terminal == Delivered
            <==> exists k :: 0 <= k < |outcomes| && k <= budget && outcomes[k] == Success
                             && forall j :: 0 <= j < k ==> Retryable(outcomes[j])
  {
    if k :| 0 <= k < |outcomes| && k <= budget && outcomes[k] == Success && forall j :: 0 <= j < k ==> Retryable(outcomes[j]) {
      assert DecidedAt(outcomes, budget, k);
    }
    if r.terminal == Delivered {
      var k: nat :| DecidedAt(outcomes, budget, k) && r == DecidedReport(outcomes, k);
      assert outcomes[k] == Success;
    }
  }

  /** Attempts are bounded, the trace is the consumed prefix, and each stall in it caused one intent. */
  lemma ReportBounds(outcomes: seq<Fault>, budget: nat, r: Report)
    requires Explains(r, outcomes, budget)
    ensures r.attempts <= budget + 1 && r.retriesUsed <= budget
    ensures r.trace <= outcomes && r.attempts == |r.trace| && r.clearHaltIntents == Stalls(r.trace)
  {
    if k: nat :| DecidedAt(outcomes, budget, k) && r == DecidedReport(outcomes, k) {
      assert |outcomes[..k + 1]| == k + 1;
    } else if outcomes != [] {
      assert |outcomes| - 1 < budget;
    }
  }

  /** Evidence beyond the deciding outcome is never looked at. */
  lemma DecidedIsStable(outcomes: seq<Fault>, more: seq<Fault>, budget: nat, r: Report)
    requires Explains(r, outcomes, budget) && r.terminal != EvidenceExhausted
    ensures Explains(r, outcomes + more, budget)
  {
    var k: nat :| DecidedAt(outcomes, budget, k) && r == DecidedReport(outcomes, k);
    assert DecidedAt(outcomes + more, budget, k);
    assert (outcomes + more)[..k + 1] == outcomes[..k + 1];
  }

  /** A larger budget never loses a delivery, and delivers in the same number of attempts. */
  lemma DeliveryIsMonotone(outcomes: seq<Fault>, budget: nat, larger: nat, r: Report)
    requires budget <= larger && Explains(r, outcomes, budget) && r.terminal == Delivered
    ensures Explains(r, outcomes, larger)
  {
    var k: nat :| DecidedAt(outcomes, budget, k) && r == DecidedReport(outcomes, k);
    assert outcomes[k] == Success;
    assert DecidedAt(outcomes, larger, k);
  }
}
