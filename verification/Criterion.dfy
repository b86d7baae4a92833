/** The promotion criterion (src/trainer/loss.py:96-300). */
module Criterion {
  import opened EnvSteps
  import opened Records
  import opened Metrics

  datatype Reason = RegressedBaselineTasks | StrictImprovement | NoNetImprovement | SecondaryImprovement

  datatype LossValue = Infinite | Finite(v: real)

  predicate Negative(l: LossValue) {
    l.Finite? && l.v < 0.0
  }

  /** One view of a run comparison: `candidateSolved` is a resolution of the untrusted tasks. */
  datatype Comparison = Comparison(
    baseline: Experiment, candidate: Experiment, candidateSolved: set<string>, invalidInfra: set<string>,
    reason: Reason, secondary: seq<Outcome>)
  {
    function BaselineSolved(): set<string> { SolvedTasks(baseline) }
    function Regressions(): set<string> { (BaselineSolved() - candidateSolved) - invalidInfra }
  }

  datatype Loss = Loss(value: LossValue, candidate: Experiment, baseline: Experiment, report: Comparison)

  /** `UnknownTasks` and `MetricFailed` are the two ValueErrors; `Unmeasurable` carries the report that the
      persisted decision is made from. */
  datatype Judgement =
    | Judged(loss: Loss)
    | Unmeasurable(report: Comparison, untrusted: set<string>)
    | UnknownTasks
    | MetricFailed

  // ------------------------------------------------------------ cardinalities

  lemma {:induction false} SubsetSize(a: set<string>, b: set<string>)
    requires a <= b
    ensures |a| <= |b| && (|a| == |b| ==> a == b)
    decreases b
  {
    if a != {} {
      var x :| x in a;
      SubsetSize(a - {x}, b - {x});
      assert |a - {x}| == |b - {x}| ==> a == (a - {x}) + {x} == (b - {x}) + {x} == b;
    } else if |b| == 0 {
      assert b == {};
    }
  }

  // ------------------------------------------------------------ lexicographic tie-break

  predicate Decisive(v: Outcome) {
    v.CandidateBetter? || v.BaselineBetter?
  }

  /** The verdicts in metric order, up to and including the first that decides or fails. */
  function Consulted(ms: seq<Metric>, baseline: Experiment, candidate: Experiment): seq<Outcome> {
    if ms == [] then [] else
    var v := Compare(ms[0], baseline, candidate);
    if Decisive(v) || v.Failed? then [v] else [v] + Consulted(ms[1..], baseline, candidate)
  }

  lemma ConsultedStep(ms: seq<Metric>, i: nat, baseline: Experiment, candidate: Experiment, done: seq<Outcome>)
    requires i < |ms|
    ensures var v := Compare(ms[i], baseline, candidate);
      done + Consulted(ms[i..], baseline, candidate) ==
        done + [v] + if Decisive(v) || v.Failed? then [] else Consulted(ms[i + 1..], baseline, candidate)
  {
    assert ms[i..][0] == ms[i] && ms[i..][1..] == ms[i + 1..];
  }

  /** The verdict of the first decisive metric. */
  function FirstDecisive(vs: seq<Outcome>): Option<Outcome> {
    if vs == [] then None else if Decisive(vs[0]) then Some(vs[0]) else FirstDecisive(vs[1..])
  }

  predicate CandidateWinsTie(ms: seq<Metric>, baseline: Experiment, candidate: Experiment) {
    FirstDecisive(Consulted(ms, baseline, candidate)) == Some(CandidateBetter)
  }

  /** Metric `i` favours the candidate, and none before it tells the runs apart. */
  ghost predicate DecidesAt(ms: seq<Metric>, baseline: Experiment, candidate: Experiment, i: nat) {
    && i < |ms| && Compare(ms[i], baseline, candidate) == CandidateBetter
    && forall j :: 0 <= j < i ==> Compare(ms[j], baseline, candidate) in {Tied, Unavailable}
  }

  lemma DecidesLater(ms: seq<Metric>, baseline: Experiment, candidate: Experiment, i: nat)
    requires ms != [] && Compare(ms[0], baseline, candidate) in {Tied, Unavailable}
    ensures DecidesAt(ms, baseline, candidate, i + 1) <==> DecidesAt(ms[1..], baseline, candidate, i)
    ensures !DecidesAt(ms, baseline, candidate, 0)
  {
    var rest := ms[1..];
    assert i < |rest| ==> rest[i] == ms[i + 1];
    assert forall j :: 0 <= j < i && j < |rest| ==> rest[j] == ms[j + 1];
    assert forall j :: 0 < j < i + 1 && j < |ms| ==> ms[j] == rest[j - 1];
  }

  /** The tie-break is the first metric that tells the runs apart, or rejects them. */
  lemma {:induction false} WinsTieIff(ms: seq<Metric>, baseline: Experiment, candidate: Experiment)
    ensures CandidateWinsTie(ms, baseline, candidate) <==> exists i: nat :: DecidesAt(ms, baseline, candidate, i)
  {
    if ms != [] {
      var v := Compare(ms[0], baseline, candidate);
      if v in {Tied, Unavailable} {
        WinsTieIff(ms[1..], baseline, candidate);
        assert Consulted(ms, baseline, candidate)[1..] == Consulted(ms[1..], baseline, candidate);
        forall i: nat ensures DecidesAt(ms, baseline, candidate, i + 1) <==> DecidesAt(ms[1..], baseline, candidate, i)
        {
          DecidesLater(ms, baseline, candidate, i);
        }
        if CandidateWinsTie(ms, baseline, candidate) {
          var i: nat :| DecidesAt(ms[1..], baseline, candidate, i);
          assert DecidesAt(ms, baseline, candidate, i + 1);
        }
        if i: nat :| DecidesAt(ms, baseline, candidate, i) {
          assert DecidesAt(ms[1..], baseline, candidate, i - 1);
        }
      } else {
        assert Consulted(ms, baseline, candidate) == [v];
        DecidedByLast([v]);
        assert v.CandidateBetter? ==> DecidesAt(ms, baseline, candidate, 0);
        if i: nat :| DecidesAt(ms, baseline, candidate, i) { assert i == 0; }
      }
    }
  }

  function SignOf(v: Outcome): real {
    if v.CandidateBetter? then -1.0 else if v.BaselineBetter? then 1.0 else 0.0
  }

  function HalfToThe(n: nat): real {
    if n == 0 then 1.0 else HalfToThe(n - 1) / 2.0
  }

  /** The sum of 2^-(index+1) times the sign of each verdict, from position `i` on. */
  function Dyadic(vs: seq<Outcome>, i: nat): real
    requires i <= |vs|
    decreases |vs| - i
  {
    if i == |vs| then 0.0 else HalfToThe(i + 1) * SignOf(vs[i]) + Dyadic(vs, i + 1)
  }

  lemma {:induction false} HalfPositive(n: nat)
    ensures HalfToThe(n) > 0.0
  {
    if n > 0 { HalfPositive(n - 1); }
  }

  /** All later positions together weigh less than the one before them. */
  lemma {:induction false} TailIsLighter(vs: seq<Outcome>, i: nat)
    requires i <= |vs|
    ensures -HalfToThe(i) < Dyadic(vs, i) < HalfToThe(i)
    decreases |vs| - i
  {
    HalfPositive(i);
    if i < |vs| {
      TailIsLighter(vs, i + 1);
      HalfPositive(i + 1);
      assert HalfToThe(i) == HalfToThe(i + 1) + HalfToThe(i + 1);
    }
  }

  /** The dyadic sum encodes the lexicographic order exactly, also beyond the first decisive verdict. */
  lemma {:induction false} DyadicIsLexicographic(vs: seq<Outcome>, i: nat)
    requires i <= |vs|
    ensures Dyadic(vs, i) < 0.0 <==> FirstDecisive(vs[i..]) == Some(CandidateBetter)
    ensures Dyadic(vs, i) > 0.0 <==> FirstDecisive(vs[i..]) == Some(BaselineBetter)
    decreases |vs| - i
  {
    if i < |vs| {
      TailIsLighter(vs, i + 1);
      HalfPositive(i + 1);
      DyadicIsLexicographic(vs, i + 1);
      assert vs[i..][0] == vs[i] && vs[i..][1..] == vs[i + 1..];
      if Decisive(vs[i]) {
        assert HalfToThe(i + 1) * SignOf(vs[i]) == if vs[i].CandidateBetter? then -HalfToThe(i + 1) else HalfToThe(i + 1);
      } else {
        assert HalfToThe(i + 1) * SignOf(vs[i]) == 0.0;
      }
    } else {
      assert vs[i..] == [];
    }
  }

  // ------------------------------------------------------------ what a resolution is worth

  /** The rule the criterion is there for, without loss values: no baseline task is lost, and either
      something is gained or the tie-break favours the candidate. */
  predicate Selects(ms: seq<Metric>, baseline: Experiment, candidate: Experiment, solved: set<string>) {
    && SolvedTasks(baseline) <= solved
    && (SolvedTasks(baseline) != solved || CandidateWinsTie(ms, baseline, candidate))
  }

  /** `S` settles the untrusted tasks in some way and leaves the trusted ones alone. */
  predicate Resolution(candidate: Experiment, s: set<string>) {
    SolvedTasks(candidate) <= s <= SolvedTasks(candidate) + UntrustedTasks(candidate)
  }

  /** Grading the untrusted tasks after all settles them. */
  lemma RegradingSettles(c: Experiment, c': Experiment)
    requires Regraded(c, c')
    ensures Resolution(c, SolvedTasks(c'))
  {
    forall t | t in SolvedTasks(c) ensures t in SolvedTasks(c') { assert c'.tasks[t] == c.tasks[t]; }
  }

  /** And there is a grading for every way of settling them. */
  lemma SettledByRegrading(c: Experiment, s: set<string>) returns (c': Experiment)
    requires Resolution(c, s)
    ensures Regraded(c, c') && SolvedTasks(c') == s
  {
    c' := c.(tasks := map t | t in c.tasks ::
      if t in s && t !in SolvedTasks(c) then Some(c.tasks[t].value.(mode := Solved)) else c.tasks[t]);
  }

  ghost predicate SelectedUnderAll(ms: seq<Metric>, baseline: Experiment, candidate: Experiment) {
    forall s :: Resolution(candidate, s) ==> Selects(ms, baseline, candidate, s)
  }

  ghost predicate RejectedUnderAll(ms: seq<Metric>, baseline: Experiment, candidate: Experiment) {
    forall s :: Resolution(candidate, s) ==> !Selects(ms, baseline, candidate, s)
  }

  /** The two extreme resolutions bracket every other one. */
  lemma ExtremesBracket(ms: seq<Metric>, baseline: Experiment, candidate: Experiment)
    ensures var lo, hi := SolvedTasks(candidate), SolvedTasks(candidate) + UntrustedTasks(candidate);
      && (Selects(ms, baseline, candidate, lo) && Selects(ms, baseline, candidate, hi) ==>
            SelectedUnderAll(ms, baseline, candidate))
      && (!Selects(ms, baseline, candidate, lo) && !Selects(ms, baseline, candidate, hi) ==>
            RejectedUnderAll(ms, baseline, candidate))
  {
  }

  /** What the criterion is to decide, of a candidate whose rollouts ended as in `graded`: on its panel no task that
      the baseline solved is lost, and one is gained or the tie-break favours it. */
  ghost predicate Improves(ms: seq<Metric>, baseline: Experiment, c: Experiment, graded: Experiment) {
    && (forall t :: t in c.tasks && SolvedBy(baseline, t) ==> SolvedBy(graded, t))
    && ((exists t :: SolvedBy(graded, t) && !SolvedBy(baseline, t))
        || CandidateWinsTie(ms, RestrictToPanel(baseline, c.tasks.Keys), c))
  }

  lemma SelectsIfImproves(ms: seq<Metric>, baseline: Experiment, c: Experiment, graded: Experiment)
    requires graded.tasks.Keys == c.tasks.Keys
    ensures Selects(ms, RestrictToPanel(baseline, c.tasks.Keys), c, SolvedTasks(graded)) <==> Improves(ms, baseline, c, graded)
  {
    var b := RestrictToPanel(baseline, c.tasks.Keys);
    forall t ensures t in SolvedTasks(b) <==> t in c.tasks && SolvedBy(baseline, t) { }
    forall t ensures t in SolvedTasks(graded) <==> SolvedBy(graded, t) { }
    if SolvedTasks(b) <= SolvedTasks(graded) && SolvedTasks(b) != SolvedTasks(graded) {
      var t :| t in SolvedTasks(graded) && t !in SolvedTasks(b);
      assert SolvedBy(graded, t) && !SolvedBy(baseline, t);
    }
  }

  ghost predicate ImprovesHoweverGraded(ms: seq<Metric>, baseline: Experiment, c: Experiment) {
    forall c' :: Regraded(c, c') ==> Improves(ms, baseline, c, c')
  }

  ghost predicate NeverImproves(ms: seq<Metric>, baseline: Experiment, c: Experiment) {
    forall c' :: Regraded(c, c') ==> !Improves(ms, baseline, c, c')
  }

  /** Settling the untrusted tasks in every way is grading them in every way. */
  lemma SettlingIsGrading(ms: seq<Metric>, baseline: Experiment, c: Experiment)
    ensures var b := RestrictToPanel(baseline, c.tasks.Keys);
      && (SelectedUnderAll(ms, b, c) <==> ImprovesHoweverGraded(ms, baseline, c))
      && (RejectedUnderAll(ms, b, c) <==> NeverImproves(ms, baseline, c))
  {
    var b := RestrictToPanel(baseline, c.tasks.Keys);
    forall c' | Regraded(c, c')
      ensures Resolution(c, SolvedTasks(c')) && (Selects(ms, b, c, SolvedTasks(c')) <==> Improves(ms, baseline, c, c'))
    {
      RegradingSettles(c, c');
      SelectsIfImproves(ms, baseline, c, c');
    }
    forall s | Resolution(c, s)
      ensures exists c' :: Regraded(c, c') && (Selects(ms, b, c, s) <==> Improves(ms, baseline, c, c'))
    {
      var c' := SettledByRegrading(c, s);
      SelectsIfImproves(ms, baseline, c, c');
    }
  }

  /** A metric rejects its input, and the tie-break is reached at all: the baseline's solved set is one of the two
      extreme resolutions. */
  predicate FailsOnMetric(ms: seq<Metric>, b: Experiment, c: Experiment) {
    && Failed in Consulted(ms, b, c)
    && SolvedTasks(b) in {SolvedTasks(c), SolvedTasks(c) + UntrustedTasks(c)}
  }

  predicate ExtremesDiffer(ms: seq<Metric>, b: Experiment, c: Experiment) {
    Selects(ms, b, c, SolvedTasks(c)) != Selects(ms, b, c, SolvedTasks(c) + UntrustedTasks(c))
  }

  lemma EqualSize(a: set<string>, b: set<string>)
    ensures a - b == {} && |b| <= |a| <==> a == b
    ensures a - b - {} == a - b
  {
    if a - b == {} && |b| <= |a| {
      forall x | x in a ensures x in b { assert x !in a - b; }
      SubsetSize(a, b);
    }
  }

  class StrictPareto {
    const secondaryMetrics: seq<Metric>

    constructor (secondaryMetrics: seq<Metric>)
      ensures this.secondaryMetrics == secondaryMetrics
    {
      this.secondaryMetrics := secondaryMetrics;
    }

    /** `_compare`: the reason and the consulted verdicts; None when a metric rejected its input. */
    method CompareRuns(c: Comparison) returns (r: Option<(Reason, seq<Outcome>)>)
      ensures c.Regressions() != {} ==> r == Some((RegressedBaselineTasks, []))
      ensures c.Regressions() == {} && |c.candidateSolved| > |c.BaselineSolved()| ==> r == Some((StrictImprovement, []))
      ensures c.Regressions() == {} && |c.candidateSolved| <= |c.BaselineSolved()| && r.Some? ==>
        && r.value.1 == Consulted(secondaryMetrics, c.baseline, c.candidate)
        && r.value.0 == if CandidateWinsTie(secondaryMetrics, c.baseline, c.candidate)
                        then SecondaryImprovement else NoNetImprovement
      ensures r.None? <==>
        && c.Regressions() == {} && |c.candidateSolved| <= |c.BaselineSolved()|
        && Failed in Consulted(secondaryMetrics, c.baseline, c.candidate)
    {
      if c.Regressions() != {} { return Some((RegressedBaselineTasks, [])); }
      if |c.candidateSolved| > |c.BaselineSolved()| { return Some((StrictImprovement, [])); }
      var decided := Consult(c.baseline, c.candidate);
      r := decided;
    }

    /** The loop over the secondary metrics. */
    method Consult(baseline: Experiment, candidate: Experiment) returns (r: Option<(Reason, seq<Outcome>)>)
      ensures r.Some? ==>
        && r.value.1 == Consulted(secondaryMetrics, baseline, candidate)
        && r.value.0 == if CandidateWinsTie(secondaryMetrics, baseline, candidate)
                        then SecondaryImprovement else NoNetImprovement
      ensures r.None? <==> Failed in Consulted(secondaryMetrics, baseline, candidate)
    {
      hide Compare, FirstDecisive;
      var reason, verdicts, i := NoNetImprovement, [], 0;
      ghost var all := Consulted(secondaryMetrics, baseline, candidate);
      assert secondaryMetrics[0..] == secondaryMetrics;
      while i < |secondaryMetrics|
        invariant i <= |secondaryMetrics| && reason == NoNetImprovement
        invariant all == verdicts + Consulted(secondaryMetrics[i..], baseline, candidate)
        invariant forall k :: 0 <= k < |verdicts| ==> !Decisive(verdicts[k]) && !verdicts[k].Failed?
      {
        var v := Compare(secondaryMetrics[i], baseline, candidate);
        ConsultedStep(secondaryMetrics, i, baseline, candidate, verdicts);
        if v.Failed? { return None; }
        verdicts := verdicts + [v];
        if v.CandidateBetter? { reason := SecondaryImprovement; break; }
        if v.BaselineBetter? { break; }
        i := i + 1;
      }
      assert all == verdicts;
      DecidedByLast(verdicts);
      r := Some((reason, verdicts));
    }

    /** `_loss_value`: infinite on a regression, else the count difference, else the dyadic tie-break. */
    method LossOf(report: Comparison) returns (l: LossValue)
      ensures report.Regressions() != {} ==> l == Infinite
      ensures report.Regressions() == {} ==> l.Finite?
      ensures report.Regressions() == {} && |report.candidateSolved| != |report.BaselineSolved()| ==>
        l.v == (|report.BaselineSolved()| - |report.candidateSolved|) as real
      ensures report.Regressions() == {} && |report.candidateSolved| == |report.BaselineSolved()| ==>
        && (l.v < 0.0 <==> FirstDecisive(report.secondary) == Some(CandidateBetter))
        && (l.v > 0.0 <==> FirstDecisive(report.secondary) == Some(BaselineBetter))
    {
      if report.Regressions() != {} { return Infinite; }
      var primary := -(|report.candidateSolved| - |report.BaselineSolved()|);
      if primary != 0 { return Finite(primary as real); }
      var value, weight, i := 0.0, 0.5, 0;
      while i < |report.secondary|
        invariant i <= |report.secondary| && weight == HalfToThe(i + 1)
        invariant value + Dyadic(report.secondary, i) == Dyadic(report.secondary, 0)
      {
        value := value + weight * SignOf(report.secondary[i]);
        weight := weight / 2.0;
        i := i + 1;
      }
      DyadicIsLexicographic(report.secondary, 0);
      assert report.secondary[0..] == report.secondary;
      l := Finite(value);
    }

    /** `resolve`: the comparison under one resolution, with its loss. */
    method Resolve(baseline: Experiment, candidate: Experiment, solved: set<string>, reported: set<string>)
      returns (r: Option<(Comparison, LossValue)>)
      ensures r.Some? ==>
        && r.value.0.baseline == baseline && r.value.0.candidate == candidate
        && r.value.0.candidateSolved == solved && r.value.0.invalidInfra == reported
      ensures r.Some? && reported == {} ==>
        (Negative(r.value.1) <==> Selects(secondaryMetrics, baseline, candidate, solved))
      ensures r.Some? && (SolvedTasks(baseline) - solved) - reported != {} ==>
        r.value.1 == Infinite && r.value.0.reason == RegressedBaselineTasks
      ensures r.Some? && (SolvedTasks(baseline) - solved) - reported == {} ==>
        && r.value.1.Finite?
        && (|solved| < |SolvedTasks(baseline)| ==> r.value.1.v > 0.0)
        && (|solved| > |SolvedTasks(baseline)| ==>
              r.value.1.v < 0.0 && r.value.0.reason == StrictImprovement)
        && (|solved| <= |SolvedTasks(baseline)| ==>
              r.value.0.reason == if CandidateWinsTie(secondaryMetrics, baseline, candidate)
                                  then SecondaryImprovement else NoNetImprovement)
        && (|solved| == |SolvedTasks(baseline)| ==>
              (r.value.1.v < 0.0 <==> CandidateWinsTie(secondaryMetrics, baseline, candidate)))
      ensures r.None? <==>
        && (SolvedTasks(baseline) - solved) - reported == {} && |solved| <= |SolvedTasks(baseline)|
        && Failed in Consulted(secondaryMetrics, baseline, candidate)
    {
      var c := Comparison(baseline, candidate, solved, reported, NoNetImprovement, []);
      var verdict := CompareRuns(c);
      if verdict.None? { return None; }
      var report := c.(reason := verdict.value.0, secondary := verdict.value.1);
      var value := LossOf(report);
      if SolvedTasks(baseline) <= solved {
        SubsetSize(SolvedTasks(baseline), solved);
        assert c.Regressions() == {};
      } else {
        var lost :| lost in SolvedTasks(baseline) && lost !in solved;
        assert reported == {} ==> lost in c.Regressions();
      }
      r := Some((report, value));
    }

    /** `__call__`. A run is unmeasurable exactly when two ways of settling the untrusted tasks -- of grading
        the rollouts that were not graded to the end -- would select differently; otherwise the loss is negative
        exactly when every way selects, its reason says which rule selected, and the verdict is: the baseline's
        tasks are a proper subset of the candidate's, or they are equal and the first decisive metric favours the
        candidate. */
    method Judge(candidate: Experiment, baseline: Experiment) returns (j: Judgement)
      ensures j.UnknownTasks? <==> !(candidate.tasks.Keys <= baseline.tasks.Keys)
      ensures var b := RestrictToPanel(baseline, candidate.tasks.Keys);
        && (j.MetricFailed? <==> !j.UnknownTasks? && FailsOnMetric(secondaryMetrics, b, candidate))
        && (j.Unmeasurable? <==>
              !j.UnknownTasks? && !j.MetricFailed? && ExtremesDiffer(secondaryMetrics, b, candidate))
      ensures var b := RestrictToPanel(baseline, candidate.tasks.Keys);
        && (j.Judged? ==>
              || (Negative(j.loss.value) && SelectedUnderAll(secondaryMetrics, b, candidate))
              || (!Negative(j.loss.value) && RejectedUnderAll(secondaryMetrics, b, candidate)))
        && (j.Unmeasurable? ==> exists s, s' ::
              Resolution(candidate, s) && Resolution(candidate, s')
              && Selects(secondaryMetrics, b, candidate, s) && !Selects(secondaryMetrics, b, candidate, s'))
      ensures j.Judged? ==> var b := RestrictToPanel(baseline, candidate.tasks.Keys);
        && j.loss.candidate == candidate && j.loss.baseline == b
        && j.loss.report.candidateSolved == SolvedTasks(candidate)
        && j.loss.report.invalidInfra == UntrustedTasks(candidate)
        && (Negative(j.loss.value) <==>
              || SolvedTasks(b) < SolvedTasks(candidate)
              || (SolvedTasks(b) == SolvedTasks(candidate) && CandidateWinsTie(secondaryMetrics, b, candidate)))
        && (Negative(j.loss.value) <==>
              j.loss.report.reason == StrictImprovement || j.loss.report.reason == SecondaryImprovement)
      ensures j.Unmeasurable? ==>
        && j.report.candidateSolved == SolvedTasks(candidate) && j.untrusted == UntrustedTasks(candidate) != {}
      ensures j.Judged? ==>
        if Negative(j.loss.value) then ImprovesHoweverGraded(secondaryMetrics, baseline, candidate)
        else NeverImproves(secondaryMetrics, baseline, candidate)
      ensures j.Unmeasurable? ==>
        && !ImprovesHoweverGraded(secondaryMetrics, baseline, candidate)
        && !NeverImproves(secondaryMetrics, baseline, candidate)
    {
      SettlingIsGrading(secondaryMetrics, baseline, candidate);
      hide ImprovesHoweverGraded, NeverImproves;
      var panel := candidate.tasks.Keys;
      if !(panel <= baseline.tasks.Keys) { return UnknownTasks; }
      var b := RestrictToPanel(baseline, panel);
      ExtremesBracket(secondaryMetrics, b, candidate);
      if UntrustedTasks(candidate) != {} {
        var stop := Bracket(b, candidate);
        if stop.Some? {
          assert Resolution(candidate, SolvedTasks(candidate));
          assert Resolution(candidate, SolvedTasks(candidate) + UntrustedTasks(candidate));
          return stop.value;
        }
      } else {
        assert SolvedTasks(candidate) + UntrustedTasks(candidate) == SolvedTasks(candidate);
      }
      var loss := FinalLoss(b, candidate);
      j := if loss == None then MetricFailed else Judged(loss.value);
    }

    /** The bracketing part of `__call__`: None when both extremes can be resolved and agree. */
    method Bracket(b: Experiment, candidate: Experiment) returns (stop: Option<Judgement>)
      ensures stop == None ==>
        !FailsOnMetric(secondaryMetrics, b, candidate) && !ExtremesDiffer(secondaryMetrics, b, candidate)
      ensures stop.Some? ==> stop.value.MetricFailed? || stop.value.Unmeasurable?
      ensures stop.Some? ==> (stop.value.MetricFailed? <==> FailsOnMetric(secondaryMetrics, b, candidate))
      ensures stop.Some? && stop.value.Unmeasurable? ==>
        && ExtremesDiffer(secondaryMetrics, b, candidate)
        && stop.value.report.candidateSolved == SolvedTasks(candidate) && stop.value.untrusted == UntrustedTasks(candidate)
    {
      hide Consulted, FirstDecisive, SolvedTasks, UntrustedTasks;
      var solved, untrusted := SolvedTasks(candidate), UntrustedTasks(candidate);
      EqualSize(SolvedTasks(b), solved);
      EqualSize(SolvedTasks(b), solved + untrusted);
      var pessimistic := Resolve(b, candidate, solved, {});
      if pessimistic.None? { return Some(MetricFailed); }
      var optimistic := Resolve(b, candidate, solved + untrusted, {});
      if optimistic.None? { return Some(MetricFailed); }
      if Negative(pessimistic.value.1) != Negative(optimistic.value.1) {
        return Some(Unmeasurable(pessimistic.value.0, untrusted));
      }
      stop := None;
    }

    /** The last part of `__call__`, once the extreme resolutions agree: the reported loss excludes untrusted
        regressions and still says what every resolution says. */
    method FinalLoss(b: Experiment, candidate: Experiment) returns (loss: Option<Loss>)
      requires Selects(secondaryMetrics, b, candidate, SolvedTasks(candidate))
            == Selects(secondaryMetrics, b, candidate, SolvedTasks(candidate) + UntrustedTasks(candidate))
      ensures loss == None ==> FailsOnMetric(secondaryMetrics, b, candidate)
      ensures Failed in Consulted(secondaryMetrics, b, candidate) && SolvedTasks(b) == SolvedTasks(candidate) ==> loss == None
      ensures loss.Some? ==>
        && loss.value.candidate == candidate && loss.value.baseline == b
        && loss.value.report.candidateSolved == SolvedTasks(candidate)
        && loss.value.report.invalidInfra == UntrustedTasks(candidate)
        && (Negative(loss.value.value) <==> Selects(secondaryMetrics, b, candidate, SolvedTasks(candidate)))
        && (Negative(loss.value.value) <==>
              loss.value.report.reason == StrictImprovement || loss.value.report.reason == SecondaryImprovement)
    {
      var report := Resolve(b, candidate, SolvedTasks(candidate), UntrustedTasks(candidate));
      FinalReportAgrees(secondaryMetrics, b, candidate);
      Differences(SolvedTasks(b), SolvedTasks(candidate), UntrustedTasks(candidate));
      EqualSize(SolvedTasks(b), SolvedTasks(candidate));
      if report.None? { return None; }
      loss := Some(Loss(report.value.1, candidate, b, report.value.0));
    }
  }

  lemma {:induction false} DecidedByLast(vs: seq<Outcome>)
    requires forall k :: 0 <= k < |vs| - 1 ==> !Decisive(vs[k])
    ensures FirstDecisive(vs) == if vs != [] && Decisive(vs[|vs| - 1]) then Some(vs[|vs| - 1]) else None
  {
    if |vs| > 1 { DecidedByLast(vs[1..]); }
  }

  lemma Differences(b: set<string>, c: set<string>, u: set<string>)
    ensures b - c == {} <==> b <= c
    ensures (b - c) - u == {} <==> b - c <= u
  {
    if (b - c) - u == {} {
      forall x | x in b - c ensures x in u { assert x !in (b - c) - u; }
    }
    if b - c == {} {
      forall x | x in b ensures x in c { assert x !in b - c; }
    }
  }

  /** The final report leaves out regressions on untrusted tasks. When the extremes agree this never turns
      a rejection into a selection: either nothing was left out, or the candidate solves fewer tasks. */
  lemma FinalReportAgrees(ms: seq<Metric>, b: Experiment, c: Experiment)
    requires Selects(ms, b, c, SolvedTasks(c)) == Selects(ms, b, c, SolvedTasks(c) + UntrustedTasks(c))
    ensures var lost := SolvedTasks(b) - SolvedTasks(c);
      lost != {} && lost <= UntrustedTasks(c) ==>
        && |SolvedTasks(c)| < |SolvedTasks(b)|
        && SolvedTasks(c) + UntrustedTasks(c) == SolvedTasks(b) && !CandidateWinsTie(ms, b, c)
    ensures SolvedTasks(b) <= SolvedTasks(c) ==> |SolvedTasks(b)| <= |SolvedTasks(c)|
    ensures SolvedTasks(b) <= SolvedTasks(c) && |SolvedTasks(b)| == |SolvedTasks(c)| ==> SolvedTasks(b) == SolvedTasks(c)
  {
    var B, C, U := SolvedTasks(b), SolvedTasks(c), UntrustedTasks(c);
    if B <= C { SubsetSize(B, C); }
    if B - C != {} && B - C <= U {
      assert B <= C + U;
      assert C + U == B;
      SubsetSize(C, B);
    }
  }
}
