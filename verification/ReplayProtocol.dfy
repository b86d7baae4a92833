/** One replay attempt as a transducer: what `ReplayCache` asks for next, and what it becomes when the
    reply arrives (src/plugins/replay/step_cache.py). Every await of the source is one request, so a
    scheduler may run other attempts between any two of them. */
module ReplayProtocol {
  import opened EnvSteps

  /** `command` text to "starts a background process"; and the regime's scrubs. */
  datatype Regime = Regime(scrubber: Scrubber, background: string -> bool)

  datatype Scope = Scope(ns: string, epoch: nat)

  /** A store key: the hash chain over an action prefix, seeded with the scope. */
  datatype Key = Key(scope: Scope, chain: seq<Action>)

  datatype Replayed = Replayed(action: RunAction, key: Key, recordedHash: StepResult)

  /** Why an attempt takes no further call. `Lost` is the RuntimeError raised when the diagnostic read
      behind a drift misses; `Aborted` is any exception or deadline while an await was pending. */
  datatype Ending = Submitted | Drifted(actionIndex: nat) | Lost(actionIndex: nat) | Aborted

  datatype Pc =
    | Idle
    | AskBlocked
    | AskEntry
    | CatchUp(i: nat)
    | WriteBlock(i: nat)
    | ReadDiagnostic(i: nat)
    | Execute
    | Record(result: StepResult)
    | Ended(why: Ending)

  datatype EnvStep = EnvStep(action: Action, result: StepResult)

  /** The fields of `ReplayCache`, the point it is suspended at, and the history that the theorems speak
      of: what the env executed (`envLog`) and what the caller received (`outputs`). */
  datatype Attempt = Attempt(
    scope: Scope,
    chain: seq<Action>,
    replayed: seq<Replayed>,
    live: bool,
    recordable: bool,
    pc: Pc,
    envLog: seq<EnvStep>,
    outputs: seq<StepResult>)

  datatype Event =
    | Call(action: Action)
    | BlockedReply(found: bool)
    | EntryReply(hit: Option<StepResult>)
    | EnvReply(result: StepResult, elapsed: real)
    | WriteReply
    | Raised

  function Fresh(scope: Scope): Attempt {
    Attempt(scope, [], [], false, true, Idle, [], [])
  }

  const COMMAND_TIMEOUT_EXIT_CODE := 124
  const DEADLINE_RECORDING_FRACTION := 0.8
  const DEADLINE_RECORDING_SLACK_SEC := 10.0

  /** `_skip_recording_reason(...) is not None`. */
  predicate SkipRecording(rg: Regime, a: RunAction, r: StepResult, elapsed: real) {
    || rg.background(a.command)
    || r.output.exitCode == Some(COMMAND_TIMEOUT_EXIT_CODE)
    || (a.timeoutSec.Some?
        && elapsed > a.timeoutSec.value * DEADLINE_RECORDING_FRACTION
        && elapsed > a.timeoutSec.value - DEADLINE_RECORDING_SLACK_SEC)
  }

  /** A run step is left out of the record for three reasons only: it starts a background process, it was cut off by
      its own timeout, or it came too close to one -- within a fifth of it, or, if it is longer than fifty seconds,
      within ten seconds. */
  lemma NotRecordedIff(rg: Regime, a: RunAction, r: StepResult, elapsed: real)
    ensures SkipRecording(rg, a, r, elapsed) <==>
      || rg.background(a.command)
      || r.output.exitCode == Some(124)
      || (a.timeoutSec.Some? && elapsed > if a.timeoutSec.value <= 50.0 then 0.8 * a.timeoutSec.value else a.timeoutSec.value - 10.0)
  {
    if a.timeoutSec.Some? { assert a.timeoutSec.value <= 50.0 <==> 0.8 * a.timeoutSec.value >= a.timeoutSec.value - 10.0; }
  }

  predicate Enabled(s: Attempt, e: Event) {
    match s.pc
    case Idle => e.Call?
    case AskBlocked => s.chain != [] && (e.BlockedReply? || e.Raised?)
    case AskEntry => s.chain != [] && (e.EntryReply? || e.Raised?)
    case CatchUp(i) => i < |s.replayed| && s.chain != [] && (e.EnvReply? || e.Raised?)
    case WriteBlock(i) => i < |s.replayed| && (e.WriteReply? || e.Raised?)
    case ReadDiagnostic(i) => i < |s.replayed| && (e.EntryReply? || e.Raised?)
    case Execute => s.chain != [] && (e.EnvReply? || e.Raised?)
    case Record(_) => s.chain != [] && (e.WriteReply? || e.Raised?)
    case Ended(_) => false
  }

  /** Whether the live re-execution `r` of a replayed step reproduces its recorded observation. */
  predicate Matches(rg: Regime, p: Replayed, r: StepResult) {
    LiveHash(rg.scrubber, r, Some(p.action.command)) == p.recordedHash
  }

  /** `_go_live`: the first call starts the catch-up over the replayed prefix. */
  function GoLive(s: Attempt): Attempt {
    if s.replayed == [] then s.(live := true, pc := Execute) else s.(live := true, pc := CatchUp(0))
  }

  /** A step delivered to the caller; a verify step is the last one the caller asks for. */
  function Deliver(s: Attempt, r: StepResult): Attempt
    requires s.chain != []
  {
    s.(outputs := s.outputs + [r],
       pc := if s.chain[|s.chain| - 1].Verify? then Ended(Submitted) else Idle)
  }

  function AfterExecute(rg: Regime, s: Attempt, r: StepResult, elapsed: real): Attempt
    requires s.chain != []
  {
    var a := s.chain[|s.chain| - 1];
    var s' := s.(envLog := s.envLog + [EnvStep(a, r)]);
    if !s'.recordable then Deliver(s', r)
    else if a.Run? && SkipRecording(rg, a.run, r, elapsed) then Deliver(s'.(recordable := false), r)
    else s'.(pc := Record(r))
  }

  function AfterCatchUp(rg: Regime, s: Attempt, i: nat, r: StepResult): Attempt
    requires i < |s.replayed|
  {
    var s' := s.(envLog := s.envLog + [EnvStep(Run(s.replayed[i].action), r)]);
    if !Matches(rg, s.replayed[i], r) then s'.(pc := WriteBlock(i))
    else if i + 1 < |s.replayed| then s'.(pc := CatchUp(i + 1))
    else s'.(replayed := [], pc := Execute)
  }

  function Served(rg: Regime, s: Attempt, v: StepResult): Attempt
    requires s.chain != []
  {
    var a := s.chain[|s.chain| - 1];
    if a.Verify? then Deliver(s, v)
    else
      var p := Replayed(a.run, Key(s.scope, s.chain), ScrubbedHash(rg.scrubber, v, CommandOf(a)));
      Deliver(s.(replayed := s.replayed + [p]), v)
  }

  function Next(rg: Regime, s: Attempt, e: Event): Attempt
    requires Enabled(s, e)
  {
    if e.Raised? then s.(pc := Ended(Aborted)) else
    match s.pc
    case Idle =>
      s.(chain := s.chain + [e.action], pc := if s.live then Execute else AskBlocked)
    case AskBlocked =>
      if e.found then GoLive(s.(recordable := false)) else s.(pc := AskEntry)
    case AskEntry =>
      if e.hit.Some? then Served(rg, s, e.hit.value) else GoLive(s)
    case CatchUp(i) => AfterCatchUp(rg, s, i, e.result)
    case WriteBlock(i) => s.(pc := ReadDiagnostic(i))
    case ReadDiagnostic(i) =>
      s.(pc := Ended(if e.hit.Some? then Drifted(i + 1) else Lost(i + 1)))
    case Execute => AfterExecute(rg, s, e.result, e.elapsed)
    case Record(r) => Deliver(s, r)
  }

  /** Every event of `es` is enabled in turn, starting from `s`. */
  predicate Feasible(rg: Regime, s: Attempt, es: seq<Event>)
    decreases |es|
  {
    es == [] || (Enabled(s, es[0]) && Feasible(rg, Next(rg, s, es[0]), es[1..]))
  }

  function After(rg: Regime, s: Attempt, es: seq<Event>): Attempt
    requires Feasible(rg, s, es)
    decreases |es|
  {
    if es == [] then s else After(rg, Next(rg, s, es[0]), es[1..])
  }

  // ---------------------------------------------------------------- what every reply keeps

  function Actions(log: seq<EnvStep>): (r: seq<Action>)
    ensures |r| == |log| && forall k :: 0 <= k < |log| ==> r[k] == log[k].action
  {
    seq(|log|, k requires 0 <= k < |log| => log[k].action)
  }

  ghost predicate RunPrefix(c: seq<Action>, n: nat)
    requires n <= |c|
  {
    forall k :: 0 <= k < n ==> c[k].Run?
  }

  /** The replayed list describes exactly the outputs served so far, one per action of the chain. */
  ghost predicate ReplayedOk(rg: Regime, s: Attempt) {
    && |s.replayed| <= |s.chain| && |s.replayed| <= |s.outputs|
    && forall k :: 0 <= k < |s.replayed| ==>
         && s.chain[k] == Run(s.replayed[k].action)
         && s.replayed[k].key == Key(s.scope, s.chain[..k + 1])
         && s.replayed[k].recordedHash == ScrubbedHash(rg.scrubber, s.outputs[k], CommandOf(s.chain[k]))
  }

  /** The env executed the first `n` actions of the chain, in order, once each, and nothing else. */
  ghost predicate ExecutedPrefix(s: Attempt, n: nat) {
    n <= |s.chain| && Actions(s.envLog) == s.chain[..n]
  }

  /** Output `k` is the env's own result for action `k`, or its re-execution reproduced it. */
  ghost predicate Agrees(rg: Regime, s: Attempt, k: nat)
    requires k < |s.chain| && k < |s.outputs| && k < |s.envLog|
  {
    || s.outputs[k] == s.envLog[k].result
    || Reproduces(rg.scrubber, s.outputs[k], s.envLog[k].result, CommandOf(s.chain[k]))
  }

  ghost predicate AgreesUpTo(rg: Regime, s: Attempt, n: nat)
    requires n <= |s.chain| && n <= |s.outputs| && n <= |s.envLog|
  {
    forall k: nat :: k < n ==> Agrees(rg, s, k)
  }

  /** Serving: nothing has reached the env. */
  ghost predicate ServingInv(rg: Regime, s: Attempt) {
    && s.envLog == [] && ReplayedOk(rg, s)
    && match s.pc
       case Idle =>
         |s.chain| == |s.replayed| == |s.outputs| && RunPrefix(s.chain, |s.chain|)
       case AskBlocked => Asking(s)
       case AskEntry => Asking(s)
       case Ended(Submitted) =>
         |s.chain| == |s.outputs| && |s.chain| > 0 && s.chain[|s.chain| - 1].Verify?
       case Ended(Aborted) => Asking(s)
       case _ => false
  }

  ghost predicate Asking(s: Attempt) {
    && |s.replayed| == |s.outputs| && |s.chain| == |s.replayed| + 1
    && RunPrefix(s.chain, |s.chain| - 1)
  }

  /** Catching up: the env has executed the replayed prefix up to `i`, and all of it reproduced. */
  ghost predicate CatchingInv(rg: Regime, s: Attempt, i: nat) {
    && Asking(s) && ReplayedOk(rg, s) && i < |s.replayed|
    && ExecutedPrefix(s, i) && AgreesUpTo(rg, s, i)
  }

  /** Drift: the prefix before `i` reproduced and action `i` did not. */
  ghost predicate DriftInv(rg: Regime, s: Attempt, i: nat) {
    && Asking(s) && ReplayedOk(rg, s) && i < |s.replayed|
    && ExecutedPrefix(s, i + 1) && AgreesUpTo(rg, s, i)
    && !Matches(rg, s.replayed[i], s.envLog[i].result)
  }

  /** Live and caught up: the env has executed exactly the actions before `n`. */
  ghost predicate LiveInv(rg: Regime, s: Attempt, executed: nat, delivered: nat) {
    && s.replayed == [] && delivered <= executed <= |s.chain| && |s.outputs| == delivered
    && ExecutedPrefix(s, executed) && AgreesUpTo(rg, s, delivered)
  }

  ghost predicate AttemptInv(rg: Regime, s: Attempt) {
    if !s.live then ServingInv(rg, s) else
    match s.pc
    case Idle => LiveInv(rg, s, |s.chain|, |s.chain|) && RunPrefix(s.chain, |s.chain|)
    case AskBlocked => false
    case AskEntry => false
    case CatchUp(i) => CatchingInv(rg, s, i)
    case WriteBlock(i) => DriftInv(rg, s, i)
    case ReadDiagnostic(i) => DriftInv(rg, s, i)
    case Execute =>
      |s.chain| > 0 && LiveInv(rg, s, |s.chain| - 1, |s.chain| - 1) && RunPrefix(s.chain, |s.chain| - 1)
    case Record(r) =>
      && |s.chain| > 0 && LiveInv(rg, s, |s.chain|, |s.chain| - 1) && RunPrefix(s.chain, |s.chain| - 1)
      && r == s.envLog[|s.chain| - 1].result && s.recordable
    case Ended(Submitted) =>
      && |s.chain| > 0 && LiveInv(rg, s, |s.chain|, |s.chain|) && RunPrefix(s.chain, |s.chain| - 1)
      && s.chain[|s.chain| - 1].Verify?
    case Ended(Drifted(n)) => n > 0 && DriftInv(rg, s, n - 1)
    case Ended(Lost(n)) => n > 0 && DriftInv(rg, s, n - 1)
    case Ended(Aborted) => |s.outputs| <= |s.chain| && |s.envLog| <= |s.chain|
                           && Actions(s.envLog) == s.chain[..|s.envLog|]
  }
}
