/** The per-rollout event sink (src/rollout/telemetry.py:35-158): its counters and the labels it derives,
    proved against counts over the trace it wrote. */
module Telemetry {
  datatype Row =
    | Call(step: nat, attempt: nat, rejected: bool)
    | EmptyTurn(step: nat)
    | StepDone(step: nat, callIndex: nat, terminal: bool)

  predicate IsStep(r: Row) { !r.Call? }

  /** The row that concludes a decision: an empty turn, or the first step of a batch. */
  predicate IsDecision(r: Row) { r.EmptyTurn? || (r.StepDone? && r.callIndex == 0) }

  /** Step rows among the first `k` rows. */
  function Steps(trace: seq<Row>, k: nat): (n: nat)
    requires k <= |trace|
  {
    if k == 0 then 0 else Steps(trace, k - 1) + if IsStep(trace[k - 1]) then 1 else 0
  }

  /** Model calls since the last decision before row `k`. */
  function CallsSince(trace: seq<Row>, k: nat): nat
    requires k <= |trace|
  {
    if k == 0 || IsDecision(trace[k - 1]) then 0
    else CallsSince(trace, k - 1) + if trace[k - 1].Call? then 1 else 0
  }

  /** Decisions among the first `k` rows that took at least one model call. */
  function Sampled(trace: seq<Row>, k: nat): nat
    requires k <= |trace|
  {
    if k == 0 then 0
    else Sampled(trace, k - 1) + if IsDecision(trace[k - 1]) && CallsSince(trace, k - 1) > 0 then 1 else 0
  }

  /** Decisions that produced actions from exactly one model call. */
  function FirstTry(trace: seq<Row>, k: nat): nat
    requires k <= |trace|
  {
    if k == 0 then 0
    else FirstTry(trace, k - 1)
         + if IsDecision(trace[k - 1]) && trace[k - 1].StepDone? && CallsSince(trace, k - 1) == 1 then 1 else 0
  }

  /** Rows are labelled by what precedes them: steps number consecutively from one, calls belong to the step
      after the last one and count up within their decision. */
  ghost predicate Labelled(trace: seq<Row>) {
    forall k :: 0 <= k < |trace| ==> LabelledAt(trace, k)
  }

  predicate LabelledAt(trace: seq<Row>, k: nat)
    requires k < |trace|
  {
    Fits(trace[k], Steps(trace, k), CallsSince(trace, k))
  }

  predicate Fits(r: Row, steps: nat, calls: nat) {
    r.step == steps + 1 && (r.Call? ==> r.attempt == calls)
  }

  lemma {:induction false} CountsOfPrefix(trace: seq<Row>, r: Row, k: nat)
    requires k <= |trace|
    ensures Steps(trace + [r], k) == Steps(trace, k) && CallsSince(trace + [r], k) == CallsSince(trace, k)
    ensures Sampled(trace + [r], k) == Sampled(trace, k) && FirstTry(trace + [r], k) == FirstTry(trace, k)
  {
    if k > 0 { CountsOfPrefix(trace, r, k - 1); }
  }

  lemma LabelledExtends(trace: seq<Row>, r: Row)
    requires Labelled(trace) && Fits(r, Steps(trace, |trace|), CallsSince(trace, |trace|))
    ensures Labelled(trace + [r])
  {
    forall k | 0 <= k < |trace + [r]| ensures LabelledAt(trace + [r], k) {
      CountsOfPrefix(trace, r, k);
      assert k < |trace| ==> LabelledAt(trace, k);
    }
  }

  lemma CountsOfLast(trace: seq<Row>, r: Row)
    ensures var n := |trace|;
      && Steps(trace + [r], n + 1) == Steps(trace, n) + (if IsStep(r) then 1 else 0)
      && CallsSince(trace + [r], n + 1) == (if IsDecision(r) then 0 else CallsSince(trace, n) + if r.Call? then 1 else 0)
      && Sampled(trace + [r], n + 1) == Sampled(trace, n) + (if IsDecision(r) && CallsSince(trace, n) > 0 then 1 else 0)
      && FirstTry(trace + [r], n + 1) ==
           FirstTry(trace, n) + (if IsDecision(r) && r.StepDone? && CallsSince(trace, n) == 1 then 1 else 0)
  {
    CountsOfPrefix(trace, r, |trace|);
  }

  predicate Before(a: Row, b: Row)
    requires a.Call? && b.Call?
  {
    a.step < b.step || (a.step == b.step && a.attempt < b.attempt)
  }

  /** Model calls carry strictly increasing (step, attempt) labels, wherever in the episode they are made. */
  lemma LabelsIncrease(trace: seq<Row>, i: nat, j: nat)
    requires Labelled(trace) && i < j < |trace| && trace[i].Call? && trace[j].Call?
    ensures Before(trace[i], trace[j])
  {
    assert LabelledAt(trace, i) && LabelledAt(trace, j);
    CountsAdvance(trace, i, j);
  }

  lemma {:induction false} CountsAdvance(trace: seq<Row>, i: nat, k: nat)
    requires i < k <= |trace| && trace[i].Call?
    ensures Steps(trace, i) <= Steps(trace, k)
    ensures Steps(trace, i) == Steps(trace, k) ==> CallsSince(trace, i) < CallsSince(trace, k)
  {
    if i + 1 < k { CountsAdvance(trace, i, k - 1); }
  }

  /** A sample is a decision, and a decision is a step. */
  lemma {:induction false} CountsBounded(trace: seq<Row>, k: nat)
    requires k <= |trace|
    ensures FirstTry(trace, k) <= Sampled(trace, k) <= Steps(trace, k) <= k
  {
    if k > 0 { CountsBounded(trace, k - 1); }
  }

  class RolloutTelemetry {
    var firstAttemptValid: nat
    var firstAttemptTotal: nat
    var stepsTaken: nat
    var pending: nat
    var trace: seq<Row>

    constructor ()
      ensures Valid() && trace == [] && stepsTaken == 0
    {
      firstAttemptValid, firstAttemptTotal, stepsTaken, pending, trace := 0, 0, 0, 0, [];
    }

    /** Every counter is the count of the trace written so far. */
    ghost predicate Valid()
      reads this
    {
      && Labelled(trace) && stepsTaken == Steps(trace, |trace|) && pending == CallsSince(trace, |trace|)
      && firstAttemptTotal == Sampled(trace, |trace|) && firstAttemptValid == FirstTry(trace, |trace|)
    }

    method Append(r: Row)
      requires Labelled(trace) && Fits(r, Steps(trace, |trace|), CallsSince(trace, |trace|))
      modifies this`trace
      ensures trace == old(trace) + [r] && Labelled(trace)
      ensures Steps(trace, |trace|) == Steps(old(trace), |old(trace)|) + if IsStep(r) then 1 else 0
      ensures CallsSince(trace, |trace|) ==
        if IsDecision(r) then 0 else CallsSince(old(trace), |old(trace)|) + if r.Call? then 1 else 0
      ensures Sampled(trace, |trace|) == Sampled(old(trace), |old(trace)|)
        + if IsDecision(r) && CallsSince(old(trace), |old(trace)|) > 0 then 1 else 0
      ensures FirstTry(trace, |trace|) == FirstTry(old(trace), |old(trace)|)
        + if IsDecision(r) && r.StepDone? && CallsSince(old(trace), |old(trace)|) == 1 then 1 else 0
    {
      LabelledExtends(trace, r);
      CountsOfLast(trace, r);
      trace := trace + [r];
    }

    /** `_conclude_decision`. */
    method ConcludeDecision(valid: bool)
      modifies this`firstAttemptTotal, this`firstAttemptValid, this`pending
      ensures pending == 0
      ensures firstAttemptTotal == old(firstAttemptTotal) + if old(pending) > 0 then 1 else 0
      ensures firstAttemptValid == old(firstAttemptValid) + if valid && old(pending) == 1 then 1 else 0
    {
      if pending == 0 { return; }
      firstAttemptTotal := firstAttemptTotal + 1;
      if valid && pending == 1 { firstAttemptValid := firstAttemptValid + 1; }
      pending := 0;
    }

    /** `on_completion_received`, `on_completion_rejected`: a rejected call takes an ordinal too. */
    method OnCall(rejected: bool)
      requires Valid()
      modifies this
      ensures Valid() && stepsTaken == old(stepsTaken)
      ensures trace == old(trace) + [Call(stepsTaken + 1, old(pending), rejected)]
    {
      var attempt := pending;
      pending := pending + 1;
      Append(Call(stepsTaken + 1, attempt, rejected));
    }

    /** `on_no_valid_action_step`. */
    method OnEmptyTurn(step: nat)
      requires Valid() && step == stepsTaken + 1
      modifies this
      ensures Valid() && stepsTaken == step && trace == old(trace) + [EmptyTurn(step)]
    {
      ConcludeDecision(false);
      stepsTaken := step;
      Append(EmptyTurn(step));
    }

    /** `on_step_completed`. */
    method OnStep(step: nat, callIndex: nat, terminal: bool)
      requires Valid() && step == stepsTaken + 1
      modifies this
      ensures Valid() && stepsTaken == step && trace == old(trace) + [StepDone(step, callIndex, terminal)]
    {
      if callIndex == 0 { ConcludeDecision(true); }
      stepsTaken := step;
      Append(StepDone(step, callIndex, terminal));
    }
  }
}
