/** The promotion relation between runs on one panel: never both ways, sometimes in a circle, and a strict
    partial order between clean runs (src/trainer/loss.py:209-254, src/rollout/metrics.py:28-122,
    src/env/swe.py:174-197). */
module PromotionOrder {
  import opened EnvSteps
  import opened Records
  import opened Metrics
  import opened Criterion

  /** `c` is selected over `b`: what a negative loss of `StrictPareto.Judge` means on a common panel. */
  ghost predicate Beats(ms: seq<Metric>, c: Experiment, b: Experiment) {
    && c.tasks.Keys == b.tasks.Keys
    && (|| SolvedTasks(b) < SolvedTasks(c)
        || (SolvedTasks(b) == SolvedTasks(c) && CandidateWinsTie(ms, b, c)))
  }

  lemma RestrictToOwnPanel(b: Experiment)
    ensures RestrictToPanel(b, b.tasks.Keys) == b
  {
    assert RestrictToPanel(b, b.tasks.Keys).tasks == b.tasks;
  }

  /** A run that beats the baseline beats it however its untrusted tasks are settled. */
  lemma BeatsUnderBothExtremes(ms: seq<Metric>, c: Experiment, b: Experiment)
    requires c.tasks.Keys == b.tasks.Keys
    ensures Beats(ms, c, b) <==> Selects(ms, b, c, SolvedTasks(c))
    ensures Beats(ms, c, b) ==> !ExtremesDiffer(ms, b, c)
  {
  }

  /** On a common panel the criterion selects a run exactly when it beats the baseline -- untrusted tasks or
      not -- and no metric rejects its input. */
  method JudgeDecidesBeats(criterion: StrictPareto, c: Experiment, b: Experiment) returns (selected: bool)
    requires c.tasks.Keys == b.tasks.Keys
    ensures selected <==>
      Beats(criterion.secondaryMetrics, c, b) && !FailsOnMetric(criterion.secondaryMetrics, b, c)
  {
    RestrictToOwnPanel(b);
    BeatsUnderBothExtremes(criterion.secondaryMetrics, c, b);
    var j := criterion.Judge(c, b);
    selected := j.Judged? && Negative(j.loss.value);
  }

  // ------------------------------------------------------------ asymmetry

  ghost predicate AllSymmetric(ms: seq<Metric>) {
    forall i :: 0 <= i < |ms| ==> Symmetric(ms[i])
  }

  lemma {:induction false} SwappedTieBreak(ms: seq<Metric>, x: Experiment, y: Experiment)
    requires AllSymmetric(ms)
    ensures FirstDecisive(Consulted(ms, y, x)) ==
      match FirstDecisive(Consulted(ms, x, y)) case None => None case Some(v) => Some(Flip(v))
  {
    if ms != [] {
      SymmetricFlips(ms[0], x, y);
      SwappedTieBreak(ms[1..], x, y);
      var v, w := Compare(ms[0], x, y), Compare(ms[0], y, x);
      assert Decisive(v) <==> Decisive(w);
      if !Decisive(v) && !v.Failed? {
        assert Consulted(ms, x, y)[1..] == Consulted(ms[1..], x, y);
        assert Consulted(ms, y, x)[1..] == Consulted(ms[1..], y, x);
      }
    }
  }

  /** With metrics that scope both runs alike -- every shipped one does -- no two runs beat each other. */
  lemma PromotionIsAsymmetric(ms: seq<Metric>, a: Experiment, b: Experiment)
    requires AllSymmetric(ms) && Beats(ms, a, b)
    ensures !Beats(ms, b, a)
  {
    SwappedTieBreak(ms, a, b);
  }

  // ------------------------------------------------------------ the scopes of a tie

  /** The tasks on which a run carries cost; on all others infrastructure broke the rollout. */
  function ScorableTasks(e: Experiment): set<string> {
    set t | t in e.tasks && Scorable(e.tasks[t])
  }

  /** Every scorable rollout publishes its attempts and, when solved, its steps. */
  ghost predicate Published(e: Experiment) {
    forall t :: t in ScorableTasks(e) ==>
      && HasMetric(e, t, FirstAttemptValid) && HasMetric(e, t, FirstAttemptTotal)
      && (t in SolvedTasks(e) ==> HasMetric(e, t, StepCount))
  }

  ghost function ProgressOver(e: Experiment, scope: set<string>): real {
    Sum(scope, Contribution(e, F2pPassed)) - Sum(scope, Contribution(e, P2pFailed))
  }

  ghost function ProgressScore(e: Experiment): real { ProgressOver(e, Contested(e)) }

  ghost function InvalidScore(e: Experiment): real {
    Sum(ScorableTasks(e), Contribution(e, FirstAttemptTotal)) - Sum(ScorableTasks(e), Contribution(e, FirstAttemptValid))
  }

  ghost function StepsScore(e: Experiment): real {
    Sum(SolvedTasks(e), Contribution(e, StepCount))
  }

  /** The order the shipped metrics encode: more progress, then fewer invalid attempts, then fewer steps. */
  ghost predicate ScoresBetter(c: Experiment, b: Experiment) {
    || ProgressScore(c) > ProgressScore(b)
    || (ProgressScore(c) == ProgressScore(b)
        && (|| InvalidScore(c) < InvalidScore(b)
            || (InvalidScore(c) == InvalidScore(b) && StepsScore(c) < StepsScore(b))))
  }

  /** A tie between runs that are scorable on the same tasks. */
  ghost predicate SameScope(b: Experiment, c: Experiment) {
    && Published(b) && Published(c) && ScorableTasks(b) == ScorableTasks(c) && SolvedTasks(b) == SolvedTasks(c)
  }

  lemma ScopesFromScorable(b: Experiment, c: Experiment)
    ensures Contested(b) == ScorableTasks(b) - SolvedTasks(b) && Contested(c) == ScorableTasks(c) - SolvedTasks(c)
    ensures ScorableInBoth(b, c) == ScorableTasks(b) * ScorableTasks(c)
    ensures SolvedTasks(b) <= ScorableTasks(b) && SolvedTasks(c) <= ScorableTasks(c)
  {
  }

  lemma ProgressOnSameScope(b: Experiment, c: Experiment)
    requires SameScope(b, c)
    ensures ProgressValues(b, c) == Readings(Value(ProgressScore(b)), Value(ProgressScore(c)))
  {
    ScopesFromScorable(b, c);
    assert Contested(b) * Contested(c) == Contested(b);
  }

  lemma InvalidOverOwnScope(e: Experiment)
    requires Published(e)
    ensures InvalidFirstAttempts(e, ScorableTasks(e))
         == if ScorableTasks(e) == {} then Missing else Value(InvalidScore(e))
  {
    if t :| t in ScorableTasks(e) { assert HasMetric(e, t, FirstAttemptTotal); }
  }

  lemma InvalidOnSameScope(b: Experiment, c: Experiment)
    requires SameScope(b, c)
    ensures InvalidFirstAttemptsValues(b, c) ==
      if ScorableTasks(b) == {} then Readings(Missing, Missing) else Readings(Value(InvalidScore(b)), Value(InvalidScore(c)))
  {
    ScopesFromScorable(b, c);
    assert ScorableInBoth(b, c) == ScorableTasks(b);
    InvalidOverOwnScope(b);
    InvalidOverOwnScope(c);
  }

  lemma StepsOnSameScope(b: Experiment, c: Experiment)
    requires SameScope(b, c)
    ensures StepsUsedValues(b, c) == Readings(Value(StepsScore(b)), Value(StepsScore(c)))
  {
    ScopesFromScorable(b, c);
    assert SolvedTasks(b) * SolvedTasks(c) == SolvedTasks(b);
    assert forall t :: t in SolvedTasks(b) ==> t in ScorableTasks(b) && t in ScorableTasks(c);
  }

  /** The first decisive of the three verdicts. */
  function FirstOf(v0: Outcome, v1: Outcome, v2: Outcome): Option<Outcome> {
    if Decisive(v0) then Some(v0) else if Decisive(v1) then Some(v1) else if Decisive(v2) then Some(v2) else None
  }

  lemma ThreeConsulted(m0: Metric, m1: Metric, m2: Metric, b: Experiment, c: Experiment)
    requires !Compare(m0, b, c).Failed? && !Compare(m1, b, c).Failed?
    ensures var v0, v1, v2 := Compare(m0, b, c), Compare(m1, b, c), Compare(m2, b, c);
      FirstDecisive(Consulted([m0, m1, m2], b, c)) == FirstOf(v0, v1, v2)
  {
    var v0, v1, v2 := Compare(m0, b, c), Compare(m1, b, c), Compare(m2, b, c);
    assert [m0, m1, m2][1..] == [m1, m2] && [m1, m2][1..] == [m2] && [m2][1..] == [];
    assert Consulted([m2], b, c) == [v2];
    assert Consulted([m1, m2], b, c) == if Decisive(v1) then [v1] else [v1, v2];
    assert Consulted([m0, m1, m2], b, c)
        == if Decisive(v0) then [v0] else if Decisive(v1) then [v0, v1] else [v0, v1, v2];
    DecidedByLast(Consulted([m0, m1, m2], b, c));
  }

  lemma ShippedTieBreak(b: Experiment, c: Experiment)
    requires !InvalidFirstAttemptsValues(b, c).baseline.Malformed? && !InvalidFirstAttemptsValues(b, c).candidate.Malformed?
    ensures FirstDecisive(Consulted(ShippedMetrics(), b, c)) == FirstOf(
      CompareReadings(true, ProgressValues(b, c)), CompareReadings(false, InvalidFirstAttemptsValues(b, c)),
      CompareReadings(false, StepsUsedValues(b, c)))
  {
    assert F2pProgressMetric().values(b, c) == ProgressValues(b, c);
    assert InvalidFirstAttemptsMetric().values(b, c) == InvalidFirstAttemptsValues(b, c);
    assert StepsUsedMetric().values(b, c) == StepsUsedValues(b, c);
    ThreeConsulted(F2pProgressMetric(), InvalidFirstAttemptsMetric(), StepsUsedMetric(), b, c);
  }

  lemma LexicographicReadings(b0: real, c0: real, b1: real, c1: real, b2: real, c2: real)
    ensures FirstOf(CompareReadings(true, Readings(Value(b0), Value(c0))),
                    CompareReadings(false, Readings(Value(b1), Value(c1))),
                    CompareReadings(false, Readings(Value(b2), Value(c2)))) == Some(CandidateBetter)
      <==> (c0 > b0 || (c0 == b0 && (c1 < b1 || (c1 == b1 && c2 < b2))))
    ensures b1 == c1 ==>
      FirstOf(CompareReadings(true, Readings(Value(b0), Value(c0))),
              CompareReadings(false, Readings(Missing, Missing)),
              CompareReadings(false, Readings(Value(b2), Value(c2))))
        == FirstOf(CompareReadings(true, Readings(Value(b0), Value(c0))),
                   CompareReadings(false, Readings(Value(b1), Value(c1))),
                   CompareReadings(false, Readings(Value(b2), Value(c2))))
  {
  }

  /** Between runs that are scorable on the same tasks the tie-break is the lexicographic order of three scores. */
  lemma TieBreakByScores(b: Experiment, c: Experiment)
    requires SameScope(b, c)
    ensures CandidateWinsTie(ShippedMetrics(), b, c) <==> ScoresBetter(c, b)
  {
    ProgressOnSameScope(b, c);
    InvalidOnSameScope(b, c);
    StepsOnSameScope(b, c);
    ShippedTieBreak(b, c);
    LexicographicReadings(ProgressScore(b), ProgressScore(c), InvalidScore(b), InvalidScore(c),
                          StepsScore(b), StepsScore(c));
  }

  /** Runs without a common scorable task never win a tie: no metric has anything to compare. */
  lemma NoTieBreakWithoutScope(b: Experiment, c: Experiment)
    requires ScorableTasks(b) * ScorableTasks(c) == {} && SolvedTasks(b) == SolvedTasks(c)
    ensures !CandidateWinsTie(ShippedMetrics(), b, c)
  {
    ScopesFromScorable(b, c);
    assert Contested(b) * Contested(c) == {} by {
      forall t ensures t !in Contested(b) * Contested(c) { assert t !in ScorableTasks(b) * ScorableTasks(c); }
    }
    assert SolvedTasks(b) * SolvedTasks(c) == {} by {
      forall t ensures t !in SolvedTasks(b) * SolvedTasks(c) { assert t !in ScorableTasks(b) * ScorableTasks(c); }
    }
    assert ProgressValues(b, c) == Readings(Value(0.0), Value(0.0));
    assert InvalidFirstAttemptsValues(b, c) == Readings(Missing, Missing);
    assert StepsUsedValues(b, c) == Readings(Value(0.0), Value(0.0));
    ShippedTieBreak(b, c);
  }

  /** The rollout publishes one of the two attempt counts without the other. */
  predicate HalfPublished(e: Experiment, t: string) {
    t in e.tasks && e.tasks[t].Some?
    && var m := e.tasks[t].value.metrics; (FirstAttemptValid in m) != (FirstAttemptTotal in m)
  }

  lemma ThreeFail(m0: Metric, m1: Metric, m2: Metric, b: Experiment, c: Experiment)
    requires !Compare(m0, b, c).Failed? && !Compare(m2, b, c).Failed?
    ensures Failed in Consulted([m0, m1, m2], b, c) <==> !Decisive(Compare(m0, b, c)) && Compare(m1, b, c).Failed?
  {
    var v0, v1, v2 := Compare(m0, b, c), Compare(m1, b, c), Compare(m2, b, c);
    assert [m0, m1, m2][1..] == [m1, m2] && [m1, m2][1..] == [m2] && [m2][1..] == [];
    assert Consulted([m2], b, c) == [v2];
    assert Consulted([m1, m2], b, c) == if Decisive(v1) || v1.Failed? then [v1] else [v1, v2];
    assert Consulted([m0, m1, m2], b, c)
        == if Decisive(v0) then [v0] else if Decisive(v1) || v1.Failed? then [v0, v1] else [v0, v1, v2];
  }

  /** The shipped metrics reject a pair of runs in one case only: the tie-break is reached, both made equal progress,
      and some task that both were scored on has a half-published rollout. */
  lemma ShippedFailureIff(b: Experiment, c: Experiment)
    ensures FailsOnMetric(ShippedMetrics(), b, c) <==>
      && SolvedTasks(b) in {SolvedTasks(c), SolvedTasks(c) + UntrustedTasks(c)}
      && ProgressOver(b, Contested(b) * Contested(c)) == ProgressOver(c, Contested(b) * Contested(c))
      && exists t :: t in ScorableInBoth(b, c) && (HalfPublished(b, t) || HalfPublished(c, t))
  {
    assert F2pProgressMetric().values(b, c) == ProgressValues(b, c);
    assert InvalidFirstAttemptsMetric().values(b, c) == InvalidFirstAttemptsValues(b, c);
    assert StepsUsedMetric().values(b, c) == StepsUsedValues(b, c);
    forall e, t | t in ScorableInBoth(b, c) && e in {b, c}
      ensures HalfPublished(e, t) <==> HasMetric(e, t, FirstAttemptValid) != HasMetric(e, t, FirstAttemptTotal)
    {
    }
    ThreeFail(F2pProgressMetric(), InvalidFirstAttemptsMetric(), StepsUsedMetric(), b, c);
  }

  // ------------------------------------------------------------ when promotion is transitive

  /** Runs of one panel that publish their metrics, scorable on a set of the family. */
  ghost predicate InFamily(e: Experiment, panel: set<string>, family: set<set<string>>) {
    e.tasks.Keys == panel && Published(e) && ScorableTasks(e) in family
  }

  ghost predicate TransitiveOver(panel: set<string>, family: set<set<string>>) {
    forall a, b, c :: ChainOver(panel, family, a, b, c) ==> Beats(ShippedMetrics(), a, c)
  }

  /** `a` is selected over `b` and `b` over `c`. */
  ghost predicate ChainOver(panel: set<string>, family: set<set<string>>, a: Experiment, b: Experiment, c: Experiment) {
    && InFamily(a, panel, family) && InFamily(b, panel, family) && InFamily(c, panel, family)
    && Beats(ShippedMetrics(), a, b) && Beats(ShippedMetrics(), b, c)
  }

  ghost predicate EqualOrDisjoint(family: set<set<string>>) {
    forall x, y :: x in family && y in family ==> x == y || x * y == {}
  }

  lemma ScoresTransitive(a: Experiment, b: Experiment, c: Experiment)
    requires ScoresBetter(a, b) && ScoresBetter(b, c)
    ensures ScoresBetter(a, c)
  {
  }

  lemma TiesCompose(a: Experiment, b: Experiment, c: Experiment)
    requires SameScope(b, a) && SameScope(c, b)
    requires CandidateWinsTie(ShippedMetrics(), b, a) && CandidateWinsTie(ShippedMetrics(), c, b)
    ensures CandidateWinsTie(ShippedMetrics(), c, a)
  {
    TieBreakByScores(b, a);
    TieBreakByScores(c, b);
    ScoresTransitive(a, b, c);
    TieBreakByScores(c, a);
  }

  lemma ComposesOver(panel: set<string>, family: set<set<string>>, a: Experiment, b: Experiment, c: Experiment)
    requires EqualOrDisjoint(family)
    requires ChainOver(panel, family, a, b, c)
    ensures Beats(ShippedMetrics(), a, c)
  {
    if SolvedTasks(a) == SolvedTasks(b) == SolvedTasks(c) {
      if ScorableTasks(a) * ScorableTasks(b) == {} { NoTieBreakWithoutScope(b, a); }
      if ScorableTasks(b) * ScorableTasks(c) == {} { NoTieBreakWithoutScope(c, b); }
      TiesCompose(a, b, c);
    }
  }

  // ------------------------------------------------------------ promotion can run in a circle

  /** A run that solved nothing, is scorable on `scorable` and fixed so many tests of two tasks. */
  function Unsolved(panel: set<string>, scorable: set<string>, s: string, onS: real, t: string, onT: real): Experiment {
    Plain(map u | u in panel ::
            Some(Rollout(if u in scorable then VerifiedRejected else Crash,
                         map[FirstAttemptValid := 0.0, FirstAttemptTotal := 0.0,
                             F2pPassed := if u == s then onS else if u == t then onT else 0.0])))
  }

  function Plain(tasks: map<string, Option<Rollout>>): Experiment {
    Experiment(0, Root(""), "", tasks, false, NoKind, None, None, None)
  }

  lemma UnsolvedFacts(panel: set<string>, scorable: set<string>, s: string, onS: real, t: string, onT: real)
    requires scorable <= panel
    ensures var e := Unsolved(panel, scorable, s, onS, t, onT);
      e.tasks.Keys == panel && SolvedTasks(e) == {} && ScorableTasks(e) == scorable && Published(e)
      && Contested(e) == scorable
  {
  }

  lemma {:induction false} SumOfZeros(scope: set<string>, f: string -> real)
    requires forall u :: u in scope ==> f(u) == 0.0
    ensures Sum(scope, f) == 0.0
    decreases scope
  {
    if scope != {} {
      var x :| x in scope && Sum(scope, f) == f(x) + Sum(scope - {x}, f);
      SumOfZeros(scope - {x}, f);
    }
  }

  lemma SumAt(scope: set<string>, f: string -> real, s: string, t: string)
    requires s != t && forall u :: u in scope && u != s && u != t ==> f(u) == 0.0
    ensures Sum(scope, f) == (if s in scope then f(s) else 0.0) + (if t in scope then f(t) else 0.0)
  {
    if s in scope { SumSplits(scope, f, s); }
    if t in scope - {s} { SumSplits(scope - {s}, f, t); }
    assert s !in scope ==> scope - {s} == scope;
    assert t !in scope - {s} ==> scope - {s} - {t} == scope - {s};
    SumOfZeros(scope - {s} - {t}, f);
  }

  lemma UnsolvedProgress(panel: set<string>, scorable: set<string>, s: string, onS: real, t: string, onT: real,
                         scope: set<string>)
    requires scope <= panel && s != t
    ensures ProgressOver(Unsolved(panel, scorable, s, onS, t, onT), scope)
         == (if s in scope then onS else 0.0) + (if t in scope then onT else 0.0)
  {
    var e := Unsolved(panel, scorable, s, onS, t, onT);
    SumAt(scope, Contribution(e, F2pPassed), s, t);
    SumAt(scope, Contribution(e, P2pFailed), s, t);
  }

  /** More progress over the common scope decides at the first metric, so no later one is consulted. */
  lemma ProgressDecides(c: Experiment, b: Experiment)
    requires c.tasks.Keys == b.tasks.Keys && SolvedTasks(c) == SolvedTasks(b)
    requires var scope := Contested(b) * Contested(c); ProgressOver(c, scope) > ProgressOver(b, scope)
    ensures Beats(ShippedMetrics(), c, b) && !FailsOnMetric(ShippedMetrics(), b, c)
  {
    assert F2pProgressMetric().values(b, c) == ProgressValues(b, c);
    assert Compare(F2pProgressMetric(), b, c) == CandidateBetter;
    assert ShippedMetrics()[0] == F2pProgressMetric();
    assert Consulted(ShippedMetrics(), b, c) == [CandidateBetter];
  }

  ghost predicate SelectedOver(c: Experiment, b: Experiment) {
    Beats(ShippedMetrics(), c, b) && !FailsOnMetric(ShippedMetrics(), b, c)
  }

  /** Two different overlapping scorable sets are enough for a circle of three: the scope of a metric depends
      on both runs. `s` is scorable in all three runs, `t` only in two of them. */
  lemma CircleOf(panel: set<string>, x: set<string>, y: set<string>, s: string, t: string)
    requires x <= panel && y <= panel && s in x && s in y && t in x && t !in y
    ensures var a, b, c := Unsolved(panel, x, s, 2.0, t, 0.0), Unsolved(panel, y, s, 1.0, t, 0.0),
                           Unsolved(panel, x, s, 0.0, t, 5.0);
      SelectedOver(a, b) && SelectedOver(b, c) && SelectedOver(c, a)
  {
    var a, b, c := Unsolved(panel, x, s, 2.0, t, 0.0), Unsolved(panel, y, s, 1.0, t, 0.0),
                   Unsolved(panel, x, s, 0.0, t, 5.0);
    UnsolvedFacts(panel, x, s, 2.0, t, 0.0);
    UnsolvedFacts(panel, y, s, 1.0, t, 0.0);
    UnsolvedFacts(panel, x, s, 0.0, t, 5.0);
    CompareUnsolved(panel, x, y, s, t, 2.0, 0.0, 1.0, 0.0);
    CompareUnsolved(panel, y, x, s, t, 1.0, 0.0, 0.0, 5.0);
    CompareUnsolved(panel, x, x, s, t, 0.0, 5.0, 2.0, 0.0);
  }

  lemma CompareUnsolved(panel: set<string>, x: set<string>, y: set<string>, s: string, t: string,
                        cs: real, ct: real, bs: real, bt: real)
    requires x <= panel && y <= panel && s != t
    requires (if s in x * y then cs else 0.0) + (if t in x * y then ct else 0.0)
           > (if s in x * y then bs else 0.0) + (if t in x * y then bt else 0.0)
    ensures SelectedOver(Unsolved(panel, x, s, cs, t, ct), Unsolved(panel, y, s, bs, t, bt))
  {
    UnsolvedFacts(panel, x, s, cs, t, ct);
    UnsolvedFacts(panel, y, s, bs, t, bt);
    assert y * x == x * y;
    UnsolvedProgress(panel, x, s, cs, t, ct, x * y);
    UnsolvedProgress(panel, y, s, bs, t, bt, x * y);
    ProgressDecides(Unsolved(panel, x, s, cs, t, ct), Unsolved(panel, y, s, bs, t, bt));
  }

  /** The exact condition: over the published runs of a panel that are scorable on sets of a family, promotion
      with the shipped metrics is transitive if and only if any two sets of the family are equal or disjoint. */
  lemma TransitiveIff(panel: set<string>, family: set<set<string>>)
    requires forall x :: x in family ==> x <= panel
    ensures TransitiveOver(panel, family) <==> EqualOrDisjoint(family)
  {
    if EqualOrDisjoint(family) {
      forall a, b, c | ChainOver(panel, family, a, b, c) ensures Beats(ShippedMetrics(), a, c)
      {
        ComposesOver(panel, family, a, b, c);
      }
    } else {
      var x, y :| x in family && y in family && x != y && x * y != {};
      var s :| s in x * y;
      if x <= y {
        var t :| t in y && t !in x;
        CircleIsNotTransitive(panel, family, y, x, s, t);
      } else {
        var t :| t in x && t !in y;
        CircleIsNotTransitive(panel, family, x, y, s, t);
      }
    }
  }

  lemma CircleIsNotTransitive(
    panel: set<string>, family: set<set<string>>, x: set<string>, y: set<string>, s: string, t: string)
    requires x in family && y in family && x <= panel && y <= panel && s in x && s in y && t in x && t !in y
    ensures !TransitiveOver(panel, family)
  {
    CircleOf(panel, x, y, s, t);
    var a, b, c := Unsolved(panel, x, s, 2.0, t, 0.0), Unsolved(panel, y, s, 1.0, t, 0.0),
                   Unsolved(panel, x, s, 0.0, t, 5.0);
    UnsolvedFacts(panel, x, s, 2.0, t, 0.0);
    UnsolvedFacts(panel, y, s, 1.0, t, 0.0);
    UnsolvedFacts(panel, x, s, 0.0, t, 5.0);
    assert ShippedAllSymmetric() by { ShippedMetricsAreSymmetric(); }
    PromotionIsAsymmetric(ShippedMetrics(), c, a);
    assert ChainOver(panel, family, a, b, c);
  }

  ghost predicate ShippedAllSymmetric() { AllSymmetric(ShippedMetrics()) }

  /** A run that solved its only task, in so many steps, with or without published attempts. */
  function SolvedOne(task: string, attempts: Option<real>, steps: real): Experiment {
    var published := if attempts == None then map[] else map[FirstAttemptValid := 0.0, FirstAttemptTotal := attempts.value];
    Plain(map[task := Some(Rollout(Solved, published[StepCount := steps]))])
  }

  /** One solved task, with these readings of its attempts and steps. */
  ghost predicate OneTask(e: Experiment, task: string, attempts: Option<real>, steps: real) {
    && e.tasks.Keys == {task} && SolvedTasks(e) == {task} && ScorableTasks(e) == {task} && Contested(e) == {}
    && (Published(e) <==> attempts.Some?)
    && InvalidFirstAttempts(e, {task}) == ReadingOf(attempts)
    && StepsUsed(e, {task}) == Value(steps)
  }

  lemma SolvedOneFacts(task: string, attempts: Option<real>, steps: real)
    ensures OneTask(SolvedOne(task, attempts, steps), task, attempts, steps)
  {
    var e := SolvedOne(task, attempts, steps);
    assert {task} - {task} == {};
    SumSplits({task}, Contribution(e, FirstAttemptTotal), task);
    SumSplits({task}, Contribution(e, FirstAttemptValid), task);
    SumSplits({task}, Contribution(e, StepCount), task);
    assert HasMetric(e, task, StepCount) && (HasMetric(e, task, FirstAttemptTotal) <==> attempts.Some?);
  }

  lemma OneTaskReadings(c: Experiment, b: Experiment, task: string, cTotal: Option<real>, cSteps: real,
                        bTotal: Option<real>, bSteps: real)
    requires OneTask(c, task, cTotal, cSteps) && OneTask(b, task, bTotal, bSteps)
    ensures ProgressValues(b, c) == Readings(Value(0.0), Value(0.0))
    ensures InvalidFirstAttemptsValues(b, c) ==
      Readings(ReadingOf(bTotal), ReadingOf(cTotal))
    ensures StepsUsedValues(b, c) == Readings(Value(bSteps), Value(cSteps))
  {
    ScopesFromScorable(b, c);
    assert {task} * {task} == {task};
    assert Contested(b) * Contested(c) == {};
  }

  /** Fewer invalid attempts win where both runs publish them, and fewer steps where one does not. */
  lemma OneTaskBeats(c: Experiment, b: Experiment, task: string, cTotal: Option<real>, cSteps: real,
                     bTotal: Option<real>, bSteps: real)
    requires OneTask(c, task, cTotal, cSteps) && OneTask(b, task, bTotal, bSteps)
    requires if cTotal.Some? && bTotal.Some? then cTotal.value < bTotal.value else cSteps < bSteps
    ensures Beats(ShippedMetrics(), c, b)
  {
    OneTaskReadings(c, b, task, cTotal, cSteps, bTotal, bSteps);
    SkipsMissing(0.0, cTotal, cSteps, bTotal, bSteps);
    ShippedTieBreak(b, c);
  }

  function ReadingOf(total: Option<real>): Reading { if total == None then Missing else Value(total.value) }

  lemma SkipsMissing(progress: real, cTotal: Option<real>, cSteps: real, bTotal: Option<real>, bSteps: real)
    requires if cTotal.Some? && bTotal.Some? then cTotal.value < bTotal.value else cSteps < bSteps
    ensures FirstOf(CompareReadings(true, Readings(Value(progress), Value(progress))),
                    CompareReadings(false, Readings(ReadingOf(bTotal), ReadingOf(cTotal))),
                    CompareReadings(false, Readings(Value(bSteps), Value(cSteps)))) == Some(CandidateBetter)
  {
  }

  /** Equal scorable sets are not enough for runs that do not publish: a metric that is missing in one run is
      skipped in its comparisons and decides the third. */
  lemma UnpublishedCircle(task: string) returns (a: Experiment, b: Experiment, c: Experiment)
    ensures a.tasks.Keys == b.tasks.Keys == c.tasks.Keys
    ensures ScorableTasks(a) == ScorableTasks(b) == ScorableTasks(c) && Published(a) && !Published(b) && Published(c)
    ensures Beats(ShippedMetrics(), a, b) && Beats(ShippedMetrics(), b, c) && Beats(ShippedMetrics(), c, a)
  {
    a, b, c := SolvedOne(task, Some(1.0), 1.0), SolvedOne(task, None, 2.0), SolvedOne(task, Some(0.0), 3.0);
    SolvedOneFacts(task, Some(1.0), 1.0);
    SolvedOneFacts(task, None, 2.0);
    SolvedOneFacts(task, Some(0.0), 3.0);
    OneTaskBeats(a, b, task, Some(1.0), 1.0, None, 2.0);
    OneTaskBeats(b, c, task, None, 2.0, Some(0.0), 3.0);
    OneTaskBeats(c, a, task, Some(0.0), 3.0, Some(1.0), 1.0);
  }

  /** The judgement selects `c` over `b`. */
  predicate Selected(j: Judgement, c: Experiment, b: Experiment) {
    j.Judged? && j.loss.candidate == c && j.loss.baseline == b && Negative(j.loss.value)
  }

  /** The circle as the criterion itself decides it, crashed tasks and all: three runs of one panel, each selected
      over the next, the first and last scorable on `x` and the other on `y`. */
  method JudgedCircle(criterion: StrictPareto, panel: set<string>, x: set<string>, y: set<string>, s: string, t: string)
    returns (a: Experiment, b: Experiment, c: Experiment, ab: Judgement, bc: Judgement, ca: Judgement)
    requires criterion.secondaryMetrics == ShippedMetrics()
    requires x <= panel && y <= panel && s in x && s in y && t in x && t !in y
    ensures a.tasks.Keys == b.tasks.Keys == c.tasks.Keys == panel
    ensures ScorableTasks(a) == ScorableTasks(c) == x && ScorableTasks(b) == y
    ensures Selected(ab, a, b) && Selected(bc, b, c) && Selected(ca, c, a)
  {
    CircleOf(panel, x, y, s, t);
    UnsolvedFacts(panel, x, s, 2.0, t, 0.0);
    UnsolvedFacts(panel, y, s, 1.0, t, 0.0);
    UnsolvedFacts(panel, x, s, 0.0, t, 5.0);
    a := Unsolved(panel, x, s, 2.0, t, 0.0);
    b := Unsolved(panel, y, s, 1.0, t, 0.0);
    c := Unsolved(panel, x, s, 0.0, t, 5.0);
    ab := JudgeSelected(criterion, a, b);
    bc := JudgeSelected(criterion, b, c);
    ca := JudgeSelected(criterion, c, a);
  }

  method JudgeSelected(criterion: StrictPareto, c: Experiment, b: Experiment) returns (j: Judgement)
    requires criterion.secondaryMetrics == ShippedMetrics() && c.tasks.Keys == b.tasks.Keys && SelectedOver(c, b)
    ensures Selected(j, c, b)
  {
    RestrictToOwnPanel(b);
    BeatsUnderBothExtremes(ShippedMetrics(), c, b);
    j := criterion.Judge(c, b);
  }

  // ------------------------------------------------------------ the tie branch without a tie

  /** Two runs for which the comparison reaches its "exact solved-set tie" branch although the solved sets
      differ: the only lost task crashed, so the final report leaves the regression out. */
  lemma TieBranchWithoutTie() returns (b: Experiment, c: Experiment)
    ensures b.tasks.Keys == c.tasks.Keys && SolvedTasks(b) != SolvedTasks(c)
    ensures SolvedTasks(b) - SolvedTasks(c) - UntrustedTasks(c) == {}
    ensures |SolvedTasks(c)| <= |SolvedTasks(b)|
    ensures RejectedUnderAll([], b, c)
  {
    b := Plain(map["p" := Some(Rollout(Solved, map[]))]);
    c := Plain(map["p" := Some(Rollout(Crash, map[]))]);
    assert SolvedTasks(b) == {"p"} && SolvedTasks(c) == {} && UntrustedTasks(c) == {"p"};
    assert Consulted([], b, c) == [];
    ExtremesBracket([], b, c);
    assert SolvedTasks(c) + UntrustedTasks(c) == {"p"};
  }
}
