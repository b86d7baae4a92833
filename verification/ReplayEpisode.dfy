/** What the replay regime is for: on a deterministic environment, an episode that runs over the step cache is the
    episode it would have been live
    (src/plugins/replay/step_cache.py under src/rollout/episode.py:248-341, src/rollout/execution.py:60-76). */
module ReplayEpisode {
  import opened EnvSteps
  import opened ReplayProtocol
  import opened ReplaySystem
  import opened ReplayDrift
  import opened EpisodeLoop

  /** What an episode asks for next, given the steps it has seen; None when it is over. */
  type Driver = seq<ChainStep> -> Option<EnvSteps.Action>

  /** The chain step that the episode makes of a result in time. */
  function StepOf(rg: Regime, a: EnvSteps.Action, r: StepResult): ChainStep {
    ChainStep(a, ScrubResult(rg.scrubber, EnvResult(a, r), CommandOf(a)), false)
  }

  function StepsOf(rg: Regime, chain: seq<EnvSteps.Action>, outs: seq<StepResult>): (steps: seq<ChainStep>)
    requires |outs| <= |chain|
    ensures |steps| == |outs| && ActionsOf(steps) == chain[..|outs|]
  {
    seq(|outs|, k requires 0 <= k < |outs| => StepOf(rg, chain[k], outs[k]))
  }

  /** Every action asked for is the driver's answer to the steps before it. */
  ghost predicate Driven(rg: Regime, d: Driver, chain: seq<EnvSteps.Action>, outs: seq<StepResult>)
    requires |outs| <= |chain|
  {
    forall k :: 0 <= k <= |outs| && k < |chain| ==> d(StepsOf(rg, chain, outs)[..k]) == Some(chain[k])
  }

  /** The first `n` steps of the one episode there is for this driver and environment. */
  function Episode(rg: Regime, raw: RawEnv, scope: Scope, d: Driver, n: nat): seq<ChainStep> {
    if n == 0 then []
    else
      var before := Episode(rg, raw, scope, d, n - 1);
      var next := d(before);
      if next == None then before
      else before + [StepOf(rg, next.value, raw(scope, ActionsOf(before) + [next.value]))]
  }

  lemma SameStep(rg: Regime, a: EnvSteps.Action, r: StepResult, r': StepResult)
    requires ScrubResult(rg.scrubber, r, CommandOf(a)) == ScrubResult(rg.scrubber, r', CommandOf(a))
    ensures StepOf(rg, a, r) == StepOf(rg, a, r')
  {
    var c := CommandOf(a);
    assert ScrubResult(rg.scrubber, EnvResult(a, r), c) == EnvResult(a, ScrubResult(rg.scrubber, r, c));
    assert ScrubResult(rg.scrubber, EnvResult(a, r'), c) == EnvResult(a, ScrubResult(rg.scrubber, r', c));
  }

  lemma OneStep(rg: Regime, raw: RawEnv, env: EnvRelation, scope: Scope, h: seq<EnvSteps.Action>, r: StepResult)
    requires DeterministicModuloScrub(rg, raw, env) && env(scope, h, r)
    ensures h != [] && StepOf(rg, h[|h| - 1], r) == StepOf(rg, h[|h| - 1], raw(scope, h))
  {
    SameStep(rg, h[|h| - 1], r, raw(scope, h));
  }

  /** Results that the environment may return, asked for by the driver, are the beginning of that episode. */
  lemma {:induction false} DrivenIsEpisode(
    rg: Regime, raw: RawEnv, env: EnvRelation, scope: Scope, d: Driver,
    chain: seq<EnvSteps.Action>, outs: seq<StepResult>, n: nat)
    requires DeterministicModuloScrub(rg, raw, env) && LiveResults(env, scope, chain, outs)
    requires Driven(rg, d, chain, outs) && n <= |outs|
    ensures Episode(rg, raw, scope, d, n) == StepsOf(rg, chain, outs)[..n]
  {
    hide DeterministicModuloScrub, StepOf;
    var steps := StepsOf(rg, chain, outs);
    if n > 0 {
      var k := n - 1;
      DrivenIsEpisode(rg, raw, env, scope, d, chain, outs, k);
      assert d(steps[..k]) == Some(chain[k]);
      assert ActionsOf(steps[..k]) == chain[..k];
      assert chain[..n] == chain[..k] + [chain[k]];
      OneStep(rg, raw, env, scope, chain[..n], outs[k]);
      assert steps[..n] == steps[..k] + [steps[k]];
    }
  }

  /** A whole episode: the driver asks for nothing more. */
  ghost predicate Complete(rg: Regime, d: Driver, chain: seq<EnvSteps.Action>, outs: seq<StepResult>) {
    |chain| == |outs| && Driven(rg, d, chain, outs) && d(StepsOf(rg, chain, outs)) == None
  }

  lemma NoLonger(
    rg: Regime, raw: RawEnv, env: EnvRelation, scope: Scope, d: Driver,
    chain: seq<EnvSteps.Action>, outs: seq<StepResult>, chain': seq<EnvSteps.Action>, outs': seq<StepResult>)
    requires DeterministicModuloScrub(rg, raw, env)
    requires LiveResults(env, scope, chain, outs) && Complete(rg, d, chain, outs)
    requires LiveResults(env, scope, chain', outs') && Complete(rg, d, chain', outs')
    ensures |outs'| <= |outs|
  {
    var n := |outs|;
    assert StepsOf(rg, chain, outs)[..n] == StepsOf(rg, chain, outs);
    DrivenIsEpisode(rg, raw, env, scope, d, chain, outs, n);
    if |outs'| > n {
      DrivenIsEpisode(rg, raw, env, scope, d, chain', outs', n);
    }
  }

  /** There is only one: whatever the environment returns, a whole episode has the same actions and the same
      observations. */
  lemma OneEpisode(
    rg: Regime, raw: RawEnv, env: EnvRelation, scope: Scope, d: Driver,
    chain: seq<EnvSteps.Action>, outs: seq<StepResult>, chain': seq<EnvSteps.Action>, outs': seq<StepResult>)
    requires DeterministicModuloScrub(rg, raw, env)
    requires LiveResults(env, scope, chain, outs) && Complete(rg, d, chain, outs)
    requires LiveResults(env, scope, chain', outs') && Complete(rg, d, chain', outs')
    ensures chain == chain' && StepsOf(rg, chain, outs) == StepsOf(rg, chain', outs')
  {
    NoLonger(rg, raw, env, scope, d, chain, outs, chain', outs');
    NoLonger(rg, raw, env, scope, d, chain', outs', chain, outs);
    var n := |outs|;
    DrivenIsEpisode(rg, raw, env, scope, d, chain, outs, n);
    DrivenIsEpisode(rg, raw, env, scope, d, chain', outs', n);
    var steps, steps' := StepsOf(rg, chain, outs), StepsOf(rg, chain', outs');
    assert steps[..n] == steps && steps'[..n] == steps' && chain[..n] == chain && chain'[..n] == chain';
  }

  // ------------------------------------------------------------ no drift

  predicate Drifting(s: Attempt) {
    || s.pc.WriteBlock? || s.pc.ReadDiagnostic?
    || (s.pc.Ended? && (s.pc.why.Drifted? || s.pc.why.Lost?))
  }

  ghost predicate NoneDrifts(g: System) {
    forall i :: 0 <= i < |g.attempts| ==> !Drifting(g.attempts[i])
  }

  /** A drift begins with a mismatch. */
  lemma DriftBegins(rg: Regime, s: Attempt, e: Event)
    requires Enabled(s, e) && !Drifting(s)
    ensures Drifting(Next(rg, s, e)) ==> Next(rg, s, e).pc.WriteBlock?
  {
  }

  lemma NoMismatch(rg: Regime, raw: RawEnv, env: EnvRelation, s: Attempt)
    requires DeterministicModuloScrub(rg, raw, env) && !UnstableSomewhere(rg, raw)
    requires AttemptInv(rg, s) && OutputsSound(env, s) && CarriesRecordable(rg, raw, s)
    ensures !s.pc.WriteBlock?
  {
    if s.pc.WriteBlock? { DriftingIsUnstable(rg, raw, env, s, s.pc.i); }
  }

  lemma ApplyDriftsNot(rg: Regime, raw: RawEnv, env: EnvRelation, reliable: bool, g: System, m: Move)
    requires DeterministicModuloScrub(rg, raw, env) && !UnstableSomewhere(rg, raw)
    requires DriftInvariant(rg, raw, env, g) && NoneDrifts(g) && Possible(rg, env, reliable, g, m)
    ensures DriftInvariant(rg, raw, env, Apply(rg, g, m)) && NoneDrifts(Apply(rg, g, m))
  {
    ApplyKeepsDriftInvariant(rg, raw, env, reliable, g, m);
    if m.Do? {
      var g' := Apply(rg, g, m);
      MemberFacts(rg, raw, env, g', m.i);
      hide AttemptInv, OutputsSound, CarriesRecordable, Sound, UnstableSomewhere, Next, Drifting;
      NoMismatch(rg, raw, env, g'.attempts[m.i]);
      DriftBegins(rg, g.attempts[m.i], m.event);
    }
  }

  lemma {:induction false} ScheduleDriftsNot(
    rg: Regime, raw: RawEnv, env: EnvRelation, reliable: bool, g: System, ms: seq<Move>)
    requires DeterministicModuloScrub(rg, raw, env) && !UnstableSomewhere(rg, raw)
    requires DriftInvariant(rg, raw, env, g) && NoneDrifts(g) && Schedule(rg, env, reliable, g, ms)
    ensures NoneDrifts(Outcome(rg, env, reliable, g, ms))
    decreases |ms|
  {
    if ms != [] {
      ApplyDriftsNot(rg, raw, env, reliable, g, ms[0]);
      ScheduleDriftsNot(rg, raw, env, reliable, Apply(rg, g, ms[0]), ms[1..]);
    }
  }

  // ------------------------------------------------------------ the replay regime keeps its promise

  /** Any number of attempts on one store, in any interleaving, with missed reads and dropped writes: each is a
      beginning of the episode of its driver, one that is complete has exactly the actions and the observations of
      every complete episode over the live executor, and none drifts unless some recordable observation is
      unstable. */
  lemma ReplayedEpisodeIsTheLiveOne(
    rg: Regime, raw: RawEnv, env: EnvRelation, reliable: bool, ms: seq<Move>, i: nat, d: Driver,
    chain: seq<EnvSteps.Action>, live: seq<StepResult>)
    requires DeterministicModuloScrub(rg, raw, env)
    requires Schedule(rg, env, reliable, Empty, ms) && i < |Outcome(rg, env, reliable, Empty, ms).attempts|
    ensures var s := Outcome(rg, env, reliable, Empty, ms).attempts[i];
      && (!UnstableSomewhere(rg, raw) ==> !Drifting(s)) && |s.outputs| <= |s.chain|
      && (Driven(rg, d, s.chain, s.outputs) ==>
            StepsOf(rg, s.chain, s.outputs) == Episode(rg, raw, s.scope, d, |s.outputs|))
      && (Complete(rg, d, s.chain, s.outputs) && LiveResults(env, s.scope, chain, live) && Complete(rg, d, chain, live) ==>
            s.chain == chain && StepsOf(rg, s.chain, s.outputs) == StepsOf(rg, chain, live))
  {
    ReplayRefinesLive(rg, env, reliable, ms);
    if !UnstableSomewhere(rg, raw) { ScheduleDriftsNot(rg, raw, env, reliable, Empty, ms); }
    var s := Outcome(rg, env, reliable, Empty, ms).attempts[i];
    if Driven(rg, d, s.chain, s.outputs) {
      DrivenIsEpisode(rg, raw, env, s.scope, d, s.chain, s.outputs, |s.outputs|);
      assert StepsOf(rg, s.chain, s.outputs)[..|s.outputs|] == StepsOf(rg, s.chain, s.outputs);
    }
    if Complete(rg, d, s.chain, s.outputs) && LiveResults(env, s.scope, chain, live) && Complete(rg, d, chain, live) {
      OneEpisode(rg, raw, env, s.scope, d, s.chain, s.outputs, chain, live);
    }
  }

  lemma EndIsFixed(o: LoopOutcome, o': LoopOutcome, steps: seq<ChainStep>, emptyTurns: nat, maxSteps: int)
    requires OutcomeFits(o, steps, emptyTurns, maxSteps) && OutcomeFits(o', steps, emptyTurns, maxSteps)
    requires !o.end.Failed? && !o'.end.Failed? && !Running(steps)
    ensures o == o'
  {
  }

  /** So they are recorded alike: if the last step of both ended them, and no exception did, and they had as many
      turns without a step, then the rollouts' results are equal. */
  lemma ReplayedRecordIsTheLiveOne(
    rg: Regime, raw: RawEnv, env: EnvRelation, reliable: bool, ms: seq<Move>, i: nat, d: Driver,
    chain: seq<EnvSteps.Action>, live: seq<StepResult>,
    o: LoopOutcome, o': LoopOutcome, emptyTurns: nat, maxSteps: int, closeFailed: bool)
    requires DeterministicModuloScrub(rg, raw, env)
    requires Schedule(rg, env, reliable, Empty, ms) && i < |Outcome(rg, env, reliable, Empty, ms).attempts|
    requires var s := Outcome(rg, env, reliable, Empty, ms).attempts[i];
      && Complete(rg, d, s.chain, s.outputs) && LiveResults(env, s.scope, chain, live)
      && OutcomeFits(o, StepsOf(rg, s.chain, s.outputs), emptyTurns, maxSteps)
    requires Complete(rg, d, chain, live) && OutcomeFits(o', StepsOf(rg, chain, live), emptyTurns, maxSteps)
    requires !o.end.Failed? && !o'.end.Failed? && !Running(StepsOf(rg, chain, live))
    ensures Finish(o, closeFailed) == Finish(o', closeFailed)
  {
    hide OutcomeFits, Running, Complete, LiveResults, Finish;
    ReplayedEpisodeIsTheLiveOne(rg, raw, env, reliable, ms, i, d, chain, live);
    EndIsFixed(o, o', StepsOf(rg, chain, live), emptyTurns, maxSteps);
  }
}
