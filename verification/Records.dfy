/** Run records (src/rollout/records.py). */
module Records {
  import opened EnvSteps

  datatype FailureMode =
    | Solved | VerifiedRejected | HitStepCap | HitTimeout | VerifyTimeout | NoValidAction | Crash | UnscorableInfra

  /** The metric keys that the criterion reads by name; the record's keys are strings. */
  datatype MetricKey = FirstAttemptValid | FirstAttemptTotal | StepCount | F2pPassed | P2pFailed | OtherMetric(key: string)

  datatype Rollout = Rollout(mode: FailureMode, metrics: map<MetricKey, real>)

  /** A git commit. Its hash covers its parent, so a commit is its parent and its own content; histories
      are finite and acyclic by construction. */
  datatype Commit = Root(tree: string) | Child(parent: Commit, tree: string)

  predicate IsAncestor(a: Commit, b: Commit) {
    a == b || (b.Child? && IsAncestor(a, b.parent))
  }

  datatype RunKind = NoKind | BaselineRun | CandidateRun

  datatype DecisionOutcome = Promoted | Rejected | InvalidInfra

  /** One run: what was measured, under which identity, and the facts its recording adds. */
  datatype Experiment = Experiment(
    id: nat, commit: Commit, identity: string, tasks: map<string, Option<Rollout>>,
    crashed: bool, kind: RunKind, parent: Option<Commit>, baselineId: Option<nat>,
    decision: Option<DecisionOutcome>)

  /** No verdict and no cost: infrastructure broke the rollout. */
  predicate Unscorable(m: FailureMode) {
    m.Crash? || m.UnscorableInfra?
  }

  /** Grading never finished. */
  predicate Untrusted(m: FailureMode) {
    Unscorable(m) || m.VerifyTimeout?
  }

  function SolvedTasks(e: Experiment): set<string> {
    set t | t in e.tasks && e.tasks[t].Some? && e.tasks[t].value.mode.Solved?
  }

  function UntrustedTasks(e: Experiment): set<string> {
    set t | t in e.tasks && e.tasks[t].Some? && Untrusted(e.tasks[t].value.mode)
  }

  /** The task's rollout was graded and passed. */
  predicate SolvedBy(e: Experiment, t: string) {
    match if t in e.tasks then e.tasks[t] else None
    case Some(r) => r.mode == Solved
    case None => false
  }

  /** `c'` is `c` with some of the rollouts that were never graded to the end graded after all. */
  ghost predicate Regraded(c: Experiment, c': Experiment) {
    && c'.tasks.Keys == c.tasks.Keys
    && forall t :: t in c.tasks ==>
         || c'.tasks[t] == c.tasks[t]
         || (c.tasks[t].Some? && c.tasks[t].value.mode in {Crash, UnscorableInfra, VerifyTimeout}
             && c'.tasks[t].Some? && c'.tasks[t].value.mode in {Solved, VerifiedRejected})
  }

  /** A rollout that carries meaningful cost. */
  predicate Scorable(r: Option<Rollout>) {
    r.Some? && !Unscorable(r.value.mode)
  }

  function RestrictToPanel(e: Experiment, panel: set<string>): Experiment {
    e.(tasks := map t | t in e.tasks && t in panel :: e.tasks[t])
  }
}
