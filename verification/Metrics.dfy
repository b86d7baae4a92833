/** Secondary reward metrics (src/rollout/metrics.py, src/env/swe.py:169-200). */
module Metrics {
  import opened EnvSteps
  import opened Records

  /** One side of a metric: a number, nothing to compare, or a malformed publication (ValueError). */
  datatype Reading = Value(v: real) | Missing | Malformed

  datatype Readings = Readings(baseline: Reading, candidate: Reading)

  datatype Outcome = CandidateBetter | BaselineBetter | Tied | Unavailable | Failed

  /** A metric reads both runs at once, because its scope depends on both. */
  datatype Metric = Metric(name: string, higherIsBetter: bool, values: (Experiment, Experiment) -> Readings)

  function CompareReadings(higherIsBetter: bool, r: Readings): Outcome {
    if r.baseline.Malformed? || r.candidate.Malformed? then Failed
    else if r.baseline.Missing? || r.candidate.Missing? then Unavailable
    else if r.candidate.v == r.baseline.v then Tied
    else if (r.candidate.v > r.baseline.v) == higherIsBetter then CandidateBetter
    else BaselineBetter
  }

  function Compare(m: Metric, baseline: Experiment, candidate: Experiment): Outcome {
    CompareReadings(m.higherIsBetter, m.values(baseline, candidate))
  }

  function Flip(v: Outcome): Outcome {
    match v
    case CandidateBetter => BaselineBetter
    case BaselineBetter => CandidateBetter
    case _ => v
  }

  /** A verdict is for the run whose value is strictly better in the metric's direction; a malformed side fails the
      comparison, and otherwise a missing one makes it unavailable. */
  lemma CompareMeans(m: Metric, baseline: Experiment, candidate: Experiment)
    ensures var v, r := Compare(m, baseline, candidate), m.values(baseline, candidate);
      && (v.Failed? <==> r.baseline == Malformed || r.candidate == Malformed)
      && (v.Unavailable? <==> !v.Failed? && (r.baseline == Missing || r.candidate == Missing))
      && (v.Tied? ==> r.baseline == r.candidate)
      && (v.CandidateBetter? ==> if m.higherIsBetter then r.candidate.v > r.baseline.v else r.candidate.v < r.baseline.v)
      && (v.BaselineBetter? ==> if m.higherIsBetter then r.candidate.v < r.baseline.v else r.candidate.v > r.baseline.v)
  {
  }

  /** Exchanging the runs exchanges the readings. */
  ghost predicate Symmetric(m: Metric) {
    forall x, y :: m.values(y, x) == Readings(m.values(x, y).candidate, m.values(x, y).baseline)
  }

  lemma SymmetricFlips(m: Metric, x: Experiment, y: Experiment)
    requires Symmetric(m)
    ensures Compare(m, y, x) == Flip(Compare(m, x, y))
  {
    assert m.values(y, x) == Readings(m.values(x, y).candidate, m.values(x, y).baseline);
  }

  // ------------------------------------------------------------ sums over task sets

  ghost function Sum(s: set<string>, f: string -> real): real {
    if s == {} then 0.0 else
    var x :| x in s;
    f(x) + Sum(s - {x}, f)
  }

  lemma {:induction false} SumSplits(s: set<string>, f: string -> real, x: string)
    requires x in s
    ensures Sum(s, f) == f(x) + Sum(s - {x}, f)
    decreases s
  {
    var y :| y in s && Sum(s, f) == f(y) + Sum(s - {y}, f);
    if y != x {
      SumSplits(s - {y}, f, x);
      SumSplits(s - {x}, f, y);
      assert s - {y} - {x} == s - {x} - {y};
    }
  }

  function MetricOr(r: Option<Rollout>, key: MetricKey): real {
    if r.Some? && key in r.value.metrics then r.value.metrics[key] else 0.0
  }

  function Contribution(e: Experiment, key: MetricKey): string -> real {
    t => if t in e.tasks then MetricOr(e.tasks[t], key) else 0.0
  }

  ghost predicate Measured(e: Experiment, s: set<string>) {
    forall t :: t in s ==> t in e.tasks && e.tasks[t].Some?
  }

  function HasMetric(e: Experiment, t: string, key: MetricKey): bool {
    t in e.tasks && e.tasks[t].Some? && key in e.tasks[t].value.metrics
  }

  // ------------------------------------------------------------ invalid first attempts

  function ScorableInBoth(x: Experiment, y: Experiment): set<string> {
    set t | t in x.tasks && t in y.tasks && Scorable(x.tasks[t]) && Scorable(y.tasks[t])
  }

  /** Whatever the order in which the tasks are visited: a half-published pair fails, nothing published is
      missing, and otherwise the count is total minus valid over the scope. */
  ghost function InvalidFirstAttempts(e: Experiment, scope: set<string>): Reading {
    if exists t :: t in scope && HasMetric(e, t, FirstAttemptValid) != HasMetric(e, t, FirstAttemptTotal)
    then Malformed
    else if forall t :: t in scope ==> !HasMetric(e, t, FirstAttemptTotal) then Missing
    else Value(Sum(scope, Contribution(e, FirstAttemptTotal)) - Sum(scope, Contribution(e, FirstAttemptValid)))
  }

  method CountInvalid(e: Experiment, scope: set<string>) returns (r: Reading)
    requires Measured(e, scope)
    ensures r == InvalidFirstAttempts(e, scope)
  {
    var valid, total, published := 0.0, 0.0, false;
    var rest := scope;
    while rest != {}
      invariant rest <= scope
      invariant total + Sum(rest, Contribution(e, FirstAttemptTotal)) == Sum(scope, Contribution(e, FirstAttemptTotal))
      invariant valid + Sum(rest, Contribution(e, FirstAttemptValid)) == Sum(scope, Contribution(e, FirstAttemptValid))
      invariant published <==> exists t :: t in scope - rest && HasMetric(e, t, FirstAttemptTotal)
      invariant forall t :: t in scope - rest ==>
                  HasMetric(e, t, FirstAttemptValid) == HasMetric(e, t, FirstAttemptTotal)
      decreases rest
    {
      var t :| t in rest;
      var metrics := e.tasks[t].value.metrics;
      if (FirstAttemptValid in metrics) != (FirstAttemptTotal in metrics) { return Malformed; }
      SumSplits(rest, Contribution(e, FirstAttemptTotal), t);
      SumSplits(rest, Contribution(e, FirstAttemptValid), t);
      if FirstAttemptTotal in metrics {
        published := true;
        valid := valid + metrics[FirstAttemptValid];
        total := total + metrics[FirstAttemptTotal];
      }
      assert scope - (rest - {t}) == scope - rest + {t};
      rest := rest - {t};
    }
    assert scope - rest == scope;
    r := if published then Value(total - valid) else Missing;
  }

  ghost function InvalidFirstAttemptsValues(x: Experiment, y: Experiment): Readings {
    var scope := ScorableInBoth(x, y);
    Readings(InvalidFirstAttempts(x, scope), InvalidFirstAttempts(y, scope))
  }

  // ------------------------------------------------------------ steps used

  ghost function StepsUsed(e: Experiment, scope: set<string>): Reading {
    if exists t :: t in scope && !HasMetric(e, t, StepCount) then Missing
    else Value(Sum(scope, Contribution(e, StepCount)))
  }

  method CountSteps(e: Experiment, scope: set<string>) returns (r: Reading)
    requires Measured(e, scope)
    ensures r == StepsUsed(e, scope)
  {
    var used, rest := 0.0, scope;
    while rest != {}
      invariant rest <= scope
      invariant used + Sum(rest, Contribution(e, StepCount)) == Sum(scope, Contribution(e, StepCount))
      invariant forall t :: t in scope - rest ==> HasMetric(e, t, StepCount)
      decreases rest
    {
      var t :| t in rest;
      if StepCount !in e.tasks[t].value.metrics { return Missing; }
      SumSplits(rest, Contribution(e, StepCount), t);
      used := used + e.tasks[t].value.metrics[StepCount];
      rest := rest - {t};
    }
    r := Value(used);
  }

  ghost function StepsUsedValues(x: Experiment, y: Experiment): Readings {
    var scope := SolvedTasks(x) * SolvedTasks(y);
    Readings(StepsUsed(x, scope), StepsUsed(y, scope))
  }

  // ------------------------------------------------------------ progress on unsolved tasks

  function Contested(e: Experiment): set<string> {
    set t | t in e.tasks && t !in SolvedTasks(e) && Scorable(e.tasks[t])
  }

  ghost function Progress(e: Experiment, scope: set<string>): Reading {
    Value(Sum(scope, Contribution(e, F2pPassed)) - Sum(scope, Contribution(e, P2pFailed)))
  }

  method CountProgress(e: Experiment, scope: set<string>) returns (r: Reading)
    requires Measured(e, scope)
    ensures r == Progress(e, scope)
  {
    var total, rest := 0.0, scope;
    while rest != {}
      invariant rest <= scope
      invariant total + Sum(rest, Contribution(e, F2pPassed)) - Sum(rest, Contribution(e, P2pFailed))
             == Sum(scope, Contribution(e, F2pPassed)) - Sum(scope, Contribution(e, P2pFailed))
      decreases rest
    {
      var t :| t in rest;
      SumSplits(rest, Contribution(e, F2pPassed), t);
      SumSplits(rest, Contribution(e, P2pFailed), t);
      var metrics := e.tasks[t].value.metrics;
      if F2pPassed in metrics { total := total + metrics[F2pPassed]; }
      if P2pFailed in metrics { total := total - metrics[P2pFailed]; }
      rest := rest - {t};
    }
    r := Value(total);
  }

  ghost function ProgressValues(x: Experiment, y: Experiment): Readings {
    var scope := Contested(x) * Contested(y);
    Readings(Progress(x, scope), Progress(y, scope))
  }

  // ------------------------------------------------------------ what the metrics do not see

  /** The rollout has no meaningful cost: infrastructure broke it, or it is not there. */
  predicate Broken(r: Option<Rollout>) {
    r == None || r.value.mode in {Crash, UnscorableInfra}
  }

  /** The tasks compared by each metric: whatever infrastructure broke in either run is left out, of both. */
  lemma ScopesIff(x: Experiment, y: Experiment, t: string)
    ensures var compared := t in x.tasks && t in y.tasks && !Broken(x.tasks[t]) && !Broken(y.tasks[t]);
      && (t in ScorableInBoth(x, y) <==> compared)
      && (t in Contested(x) * Contested(y) <==> compared && !SolvedBy(x, t) && !SolvedBy(y, t))
      && (t in SolvedTasks(x) * SolvedTasks(y) <==> SolvedBy(x, t) && SolvedBy(y, t))
  {
  }

  lemma {:induction false} SumsAgree(s: set<string>, f: string -> real, g: string -> real)
    requires forall t :: t in s ==> f(t) == g(t)
    ensures Sum(s, f) == Sum(s, g)
    decreases s
  {
    if s != {} {
      var t :| t in s;
      SumSplits(s, f, t);
      SumSplits(s, g, t);
      SumsAgree(s - {t}, f, g);
    }
  }

  /** `x'` differs from `x` on broken rollouts only. */
  ghost predicate BrokenApart(x: Experiment, x': Experiment) {
    && x'.tasks.Keys == x.tasks.Keys
    && forall t :: t in x.tasks && !(Broken(x.tasks[t]) && Broken(x'.tasks[t])) ==> x'.tasks[t] == x.tasks[t]
  }

  lemma SameReadings(x: Experiment, x': Experiment, scope: set<string>)
    requires forall t :: t in scope ==> t in x.tasks && t in x'.tasks && x'.tasks[t] == x.tasks[t]
    ensures InvalidFirstAttempts(x', scope) == InvalidFirstAttempts(x, scope)
    ensures StepsUsed(x', scope) == StepsUsed(x, scope) && Progress(x', scope) == Progress(x, scope)
  {
    forall key ensures Sum(scope, Contribution(x', key)) == Sum(scope, Contribution(x, key)) {
      SumsAgree(scope, Contribution(x', key), Contribution(x, key));
    }
    assert forall t, key :: t in scope ==> HasMetric(x', t, key) == HasMetric(x, t, key);
  }

  /** Whatever a broken rollout published, and however it broke, no shipped metric reads anything else. */
  lemma BrokenRolloutsDoNotCount(x: Experiment, x': Experiment, y: Experiment)
    requires BrokenApart(x, x')
    ensures InvalidFirstAttemptsValues(x', y) == InvalidFirstAttemptsValues(x, y)
    ensures StepsUsedValues(x', y) == StepsUsedValues(x, y)
    ensures ProgressValues(x', y) == ProgressValues(x, y)
  {
    forall t
      ensures t in ScorableInBoth(x', y) <==> t in ScorableInBoth(x, y)
      ensures t in Contested(x') * Contested(y) <==> t in Contested(x) * Contested(y)
      ensures t in SolvedTasks(x') * SolvedTasks(y) <==> t in SolvedTasks(x) * SolvedTasks(y)
    {
      ScopesIff(x, y, t);
      ScopesIff(x', y, t);
    }
    assert ScorableInBoth(x', y) == ScorableInBoth(x, y);
    assert Contested(x') * Contested(y) == Contested(x) * Contested(y);
    assert SolvedTasks(x') * SolvedTasks(y) == SolvedTasks(x) * SolvedTasks(y);
    SameReadings(x, x', ScorableInBoth(x, y));
    SameReadings(x, x', Contested(x) * Contested(y));
    SameReadings(x, x', SolvedTasks(x) * SolvedTasks(y));
  }

  // ------------------------------------------------------------ the shipped order

  ghost function F2pProgressMetric(): Metric {
    Metric("f2p_progress", true, (x, y) => ProgressValues(x, y))
  }

  ghost function InvalidFirstAttemptsMetric(): Metric {
    Metric("invalid_first_attempts", false, (x, y) => InvalidFirstAttemptsValues(x, y))
  }

  ghost function StepsUsedMetric(): Metric {
    Metric("steps_used", false, (x, y) => StepsUsedValues(x, y))
  }

  /** `SECONDARY_METRICS` of the SWE benchmark; its tail is `GENERIC_SECONDARY_METRICS`. */
  ghost function ShippedMetrics(): seq<Metric> {
    [F2pProgressMetric(), InvalidFirstAttemptsMetric(), StepsUsedMetric()]
  }

  /** Every shipped metric scopes both runs alike. */
  lemma ShippedMetricsAreSymmetric()
    ensures forall i :: 0 <= i < |ShippedMetrics()| ==> Symmetric(ShippedMetrics()[i])
  {
    forall x, y
      ensures ProgressValues(y, x) == Readings(ProgressValues(x, y).candidate, ProgressValues(x, y).baseline)
    {
      assert Contested(y) * Contested(x) == Contested(x) * Contested(y);
    }
    forall x, y
      ensures InvalidFirstAttemptsValues(y, x)
           == Readings(InvalidFirstAttemptsValues(x, y).candidate, InvalidFirstAttemptsValues(x, y).baseline)
    {
      assert ScorableInBoth(y, x) == ScorableInBoth(x, y);
    }
    forall x, y
      ensures StepsUsedValues(y, x) == Readings(StepsUsedValues(x, y).candidate, StepsUsedValues(x, y).baseline)
    {
      assert SolvedTasks(y) * SolvedTasks(x) == SolvedTasks(x) * SolvedTasks(y);
    }
    assert Symmetric(F2pProgressMetric());
    assert Symmetric(InvalidFirstAttemptsMetric());
    assert Symmetric(StepsUsedMetric());
  }
}
