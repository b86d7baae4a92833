/** The retry envelope around one rollout (src/rollout/sampler.py:139-288) and the choice of executor that
    keeps it finite (src/plugins/replay/__init__.py:62-68, src/rollout/execution.py:60-76). */
module RetryEnvelope {
  import opened EnvSteps
  import opened Records
  import opened Telemetry
  import opened EpisodeLoop

  datatype Executor = LiveExecutor | ReplayExecutor

  /** `step_executor`: `cacheable` says whether a replay cache can be made for the task at all. */
  function StepExecutor(replayRegime: bool, cacheable: bool, forceLive: bool): Executor {
    if replayRegime && !forceLive && cacheable then ReplayExecutor else LiveExecutor
  }

  datatype Attempt = Finished(result: RolloutResult) | Drifted(index: nat) | Broken

  datatype Retry = DriftRetry(index: nat) | SlowLlmRetry

  /** Timings of one rollout as its telemetry reports them. */
  datatype Timing = Timing(liveCalls: nat, latencySum: real, latencyMedian: real, p25Rate: Option<real>)

  datatype Record = Record(result: RolloutResult, retries: seq<Retry>)

  /** `_slow_llm_timeout_retry`. */
  predicate SlowLlm(r: RolloutResult, t: Timing, agentTimeout: real) {
    && r.mode.HitTimeout? && t.liveCalls >= 3 && t.p25Rate.Some?
    && t.latencySum >= 0.75 * agentTimeout && t.latencyMedian >= 20.0 && t.p25Rate.value < 10.0
  }

  /** What the records model demands of every rollout. */
  predicate CrashIffOrigin(r: RolloutResult) {
    r.mode.Crash? <==> r.origin.Some?
  }

  function Drifts(retries: seq<Retry>): nat {
    if retries == [] then 0 else Drifts(retries[..|retries| - 1]) + if retries[|retries| - 1].DriftRetry? then 1 else 0
  }

  /** One attempt: a fresh telemetry, one episode, and its classification. */
  method RunAttempt(s: Scrubber, maxSteps: int, e: Executor) returns (a: Attempt, t: Timing)
    ensures a.Drifted? ==> e == ReplayExecutor
    ensures a.Finished? ==> CrashIffOrigin(a.result)
  {
    var telemetry := new RolloutTelemetry();
    ghost var emptyTurns, calls;
    var outcome, escaped, chain;
    outcome, escaped, chain, emptyTurns, calls := RunTaskLoop(s, telemetry, maxSteps, e == ReplayExecutor);
    t := *;
    if outcome == None {
      var index: nat := *;
      return if escaped.Drift? then Drifted(index) else Broken, t;
    }
    var closeFailed: bool := *;
    var result := Finish(outcome.value, closeFailed);
    a := if result == None then Broken else Finished(result.value);
  }

  /** The final rewrite: after a drift, an environment crash says nothing about the candidate. */
  function Rewritten(r: RolloutResult, retries: seq<Retry>): RolloutResult {
    if Drifts(retries) > 0 && r.mode.Crash? && r.origin == Some(EnvOrigin)
    then r.(mode := UnscorableInfra, origin := None) else r
  }

  lemma {:induction false} DriftsOfPush(retries: seq<Retry>, r: Retry)
    ensures Drifts(retries + [r]) == Drifts(retries) + if r.DriftRetry? then 1 else 0
  {
    assert (retries + [r])[..|retries|] == retries;
  }

  /** One pass of the loop: who ran the attempt, and how it ended. */
  datatype Pass = Pass(executor: Executor, attempt: Attempt, timing: Timing)

  predicate IsSlow(p: Pass, agentTimeout: real) {
    p.attempt.Finished? && SlowLlm(p.attempt.result, p.timing, agentTimeout)
  }

  /** The entry says what its pass did: drifted on a replaying executor, or ran into a slow backend. */
  predicate Explains(r: Retry, p: Pass, agentTimeout: real) {
    match r
    case DriftRetry(index) => p.attempt == Drifted(index) && p.executor == ReplayExecutor
    case SlowLlmRetry => IsSlow(p, agentTimeout)
  }

  /** Every pass but the last has its entry, and passes after a drift run live. */
  ghost predicate Explained(retries: seq<Retry>, passes: seq<Pass>, agentTimeout: real)
    requires |retries| <= |passes|
  {
    forall i :: 0 <= i < |retries| ==> Explains(retries[i], passes[i], agentTimeout)
  }

  ghost predicate LiveAfterDrift(retries: seq<Retry>, passes: seq<Pass>)
    requires |retries| <= |passes|
  {
    forall i, j :: 0 <= i < |retries| && retries[i].DriftRetry? && i < j < |passes| ==> passes[j].executor == LiveExecutor
  }

  /** One of the first `k` passes ended in a drift. */
  predicate DriftedBefore(passes: seq<Pass>, k: nat)
    requires k <= |passes|
  {
    k > 0 && (DriftedBefore(passes, k - 1) || passes[k - 1].attempt.Drifted?)
  }

  /** Where it can, the replay regime replays, up to the first drift and no further. */
  ghost predicate ReplaysUntilDrift(replays: bool, passes: seq<Pass>) {
    forall k :: 0 <= k < |passes| ==> (passes[k].executor == ReplayExecutor <==> replays && !DriftedBefore(passes, k))
  }

  lemma {:induction false} DriftedBeforePush(passes: seq<Pass>, p: Pass, k: nat)
    requires k <= |passes|
    ensures DriftedBefore(passes + [p], k) == DriftedBefore(passes, k)
  {
    if k > 0 { DriftedBeforePush(passes, p, k - 1); }
  }

  lemma NothingReplayed(replays: bool)
    ensures ReplaysUntilDrift(replays, []) && !DriftedBefore([], 0)
  {
  }

  lemma ReplaysPush(replays: bool, passes: seq<Pass>, p: Pass)
    requires ReplaysUntilDrift(replays, passes)
    requires p.executor == ReplayExecutor <==> replays && !DriftedBefore(passes, |passes|)
    ensures ReplaysUntilDrift(replays, passes + [p])
    ensures DriftedBefore(passes + [p], |passes| + 1) == (DriftedBefore(passes, |passes|) || p.attempt.Drifted?)
  {
    forall k | 0 <= k < |passes + [p]|
      ensures (passes + [p])[k].executor == ReplayExecutor <==> replays && !DriftedBefore(passes + [p], k)
    {
      DriftedBeforePush(passes, p, k);
    }
    DriftedBeforePush(passes, p, |passes|);
  }

  /** The rollout ran into its timeout while the model answered at least three calls, taking three quarters of the
      time, twenty seconds and more for half of them, at under ten tokens a second. */
  predicate TimedOutSlowly(p: Pass, agentTimeout: real) {
    match p.attempt
    case Finished(r) =>
      && r.mode == HitTimeout && p.timing.liveCalls > 2 && 4.0 * p.timing.latencySum >= 3.0 * agentTimeout
      && !(p.timing.latencyMedian < 20.0) && (match p.timing.p25Rate case Some(rate) => rate < 10.0 case None => false)
    case _ => false
  }

  function SlowRetries(retries: seq<Retry>): int { |retries| - Drifts(retries) }

  /** Every rollout is decided within three passes, at most one of them lost to a drift and one to a slow
      backend. The record is the last pass's result, with the retries before it; after a drift an
      environment crash in it is no crash of the candidate. None: a pass failed in framework code. */
  method RunWithRetries(s: Scrubber, maxSteps: int, replayRegime: bool, cacheable: bool, deterministic: bool,
                        agentTimeout: real)
    returns (r: Option<Record>, passes: seq<Pass>)
    ensures 1 <= |passes| <= 3
    ensures ReplaysUntilDrift(replayRegime && cacheable, passes)
    ensures r == None ==> passes[|passes| - 1].attempt.Broken?
    ensures r.Some? ==>
      var retries, last := r.value.retries, passes[|passes| - 1];
      && |retries| == |passes| - 1 && Explained(retries, passes, agentTimeout) && LiveAfterDrift(retries, passes)
      && Drifts(retries) <= 1 && SlowRetries(retries) <= (if deterministic then 1 else 0)
      && last.attempt.Finished? && r.value.result == Rewritten(last.attempt.result, retries)
      && r.value.result == (
           if DriftedBefore(passes, |passes|) && last.attempt.result.mode == Crash && last.attempt.result.origin == Some(EnvOrigin)
           then last.attempt.result.(mode := UnscorableInfra, origin := None) else last.attempt.result)
      && CrashIffOrigin(r.value.result)
      && (deterministic && IsSlow(last, agentTimeout) ==> SlowRetries(retries) == 1)
      && (forall k :: 0 <= k < |retries| && retries[k].SlowLlmRetry? ==> deterministic && TimedOutSlowly(passes[k], agentTimeout))
      && (deterministic && TimedOutSlowly(last, agentTimeout) ==> SlowLlmRetry in retries)
      && (Drifts(retries) == 1 ==> last.executor == LiveExecutor && r.value.result.origin != Some(EnvOrigin))
  {
    hide ReplaysUntilDrift, DriftedBefore, SlowLlm, TimedOutSlowly;
    NothingReplayed(replayRegime && cacheable);
    var retries: seq<Retry> := [];
    var driftRetried, slowRetried := false, false;
    passes := [];
    while true
      invariant |retries| == |passes| == (if driftRetried then 1 else 0) + (if slowRetried then 1 else 0)
      invariant Drifts(retries) == if driftRetried then 1 else 0
      invariant slowRetried ==> deterministic
      invariant ReplaysUntilDrift(replayRegime && cacheable, passes)
      invariant driftRetried == DriftedBefore(passes, |passes|)
      invariant slowRetried <==> SlowLlmRetry in retries
      invariant Explained(retries, passes, agentTimeout) && LiveAfterDrift(retries, passes)
      decreases if driftRetried then 0 else 1, if slowRetried then 0 else 1
    {
      var e := StepExecutor(replayRegime, cacheable, driftRetried);
      var a, t := RunAttempt(s, maxSteps, e);
      NoDriftEntry(retries);
      ReplaysPush(replayRegime && cacheable, passes, Pass(e, a, t));
      passes := passes + [Pass(e, a, t)];
      match a
      case Broken => r := None; return;
      case Drifted(index) =>
        driftRetried := true;
        DriftsOfPush(retries, DriftRetry(index));
        retries := retries + [DriftRetry(index)];
      case Finished(result) =>
        if deterministic && SlowLlm(result, t, agentTimeout) && !slowRetried {
          slowRetried := true;
          DriftsOfPush(retries, SlowLlmRetry);
          retries := retries + [SlowLlmRetry];
        } else {
          SlowIsTimedOut(retries, passes, agentTimeout);
          r := Some(Record(if retries == [] then result else Rewritten(result, retries), retries));
          return;
        }
    }
  }

  lemma SlowIsTimedOut(retries: seq<Retry>, passes: seq<Pass>, agentTimeout: real)
    requires |retries| <= |passes| && Explained(retries, passes, agentTimeout)
    ensures forall k :: 0 <= k < |retries| && retries[k].SlowLlmRetry? ==> TimedOutSlowly(passes[k], agentTimeout)
    ensures forall k :: 0 <= k < |passes| ==> (IsSlow(passes[k], agentTimeout) <==> TimedOutSlowly(passes[k], agentTimeout))
  {
  }

  lemma {:induction false} NoDriftEntry(retries: seq<Retry>)
    ensures Drifts(retries) == 0 <==> forall i :: 0 <= i < |retries| ==> !retries[i].DriftRetry?
  {
    if retries != [] { NoDriftEntry(retries[..|retries| - 1]); }
  }
}
