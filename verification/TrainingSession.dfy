/** The training session: harness, optimizer, run store and the epoch loop (src/trainer/trainer.py,
    src/trainer/optim.py, src/trainer/parameter.py, src/rollout/store.py), in the eager regime. */
module TrainingSession {
  import opened EnvSteps
  import opened Records
  import opened Metrics
  import opened Criterion
  import PromotionOrder

  // ------------------------------------------------------------ the harness and its optimizer

  /** `Parameter`: `head` is HEAD of the main repository. */
  class Parameter {
    var head: Commit
    var grad: Option<Loss>
    var applied: Option<Commit>

    constructor (head: Commit)
      ensures this.head == head && grad == None && applied == None
    {
      this.head, grad, applied := head, None, None;
    }

    /** `git merge --ff-only`: already merged, fast-forward, or refused. */
    method MergeFfOnly(target: Commit) returns (ok: bool)
      modifies this`head
      ensures ok <==> IsAncestor(target, old(head)) || IsAncestor(old(head), target)
      ensures head == if IsAncestor(target, old(head)) || !ok then old(head) else target
    {
      if IsAncestor(target, head) { return true; }
      if !IsAncestor(head, target) { return false; }
      head := target;
      ok := true;
    }
  }

  /** `Loss.backward`. */
  method Backward(loss: Loss, harness: Parameter)
    modifies harness`grad
    ensures harness.grad == Some(loss)
  {
    harness.grad := Some(loss);
  }

  class Optimizer {
    const harness: Parameter
    const shouldPromote: Loss -> bool

    constructor (harness: Parameter, shouldPromote: Loss -> bool)
      ensures this.harness == harness && this.shouldPromote == shouldPromote
    {
      this.harness, this.shouldPromote := harness, shouldPromote;
    }

    /** `step`: false stands for the RuntimeError of a missing verdict and for a refused merge. */
    method Step() returns (ok: bool)
      modifies harness`head, harness`applied
      ensures harness.grad == None ==> !ok
      ensures harness.grad.Some? ==>
        var target := if shouldPromote(harness.grad.value) then harness.grad.value.candidate.commit else old(harness.head);
        && (ok <==> IsAncestor(target, old(harness.head)) || IsAncestor(old(harness.head), target))
        && (ok ==> harness.applied == Some(target))
        && (ok ==> harness.head == if IsAncestor(target, old(harness.head)) then old(harness.head) else target)
      ensures !ok ==> harness.applied == old(harness.applied) && harness.head == old(harness.head)
    {
      if harness.grad == None { return false; }
      var loss := harness.grad.value;
      var target := if shouldPromote(loss) then loss.candidate.commit else harness.head;
      ok := harness.MergeFfOnly(target);
      if ok { harness.applied := Some(target); }
    }
  }

  /** `GreedyMonotonic._should_promote`. */
  predicate Greedy(loss: Loss) {
    Negative(loss.value)
  }

  // ------------------------------------------------------------ the run store

  datatype Row = Row(id: nat, kind: RunKind, commit: Commit, identity: string, crashed: bool)

  function RowOf(e: Experiment): Row {
    Row(e.id, e.kind, e.commit, e.identity, e.crashed)
  }

  predicate IsBaselineRow(r: Row, commit: Commit, identity: string) {
    r.kind == BaselineRun && !r.crashed && r.commit == commit && r.identity == identity
  }

  /** The position of the newest matching row. */
  function Newest(index: seq<Row>, commit: Commit, identity: string): Option<nat> {
    if index == [] then None
    else if IsBaselineRow(index[|index| - 1], commit, identity) then Some(|index| - 1)
    else Newest(index[..|index| - 1], commit, identity)
  }

  lemma {:induction false} NewestIsLast(index: seq<Row>, commit: Commit, identity: string)
    ensures match Newest(index, commit, identity)
      case Some(i) => i < |index| && IsBaselineRow(index[i], commit, identity)
                      && forall j :: i < j < |index| ==> !IsBaselineRow(index[j], commit, identity)
      case None => forall j :: 0 <= j < |index| ==> !IsBaselineRow(index[j], commit, identity)
  {
    if index != [] && !IsBaselineRow(index[|index| - 1], commit, identity) {
      NewestIsLast(index[..|index| - 1], commit, identity);
    }
  }

  class RunStore {
    var index: seq<Row>
    var records: map<nat, Experiment>
    var nextId: nat

    /** Every indexed run is on record with the facts of its row, and run ids are not reused. */
    ghost predicate Valid()
      reads this
    {
      && (forall id :: id in records ==> id < nextId && records[id].id == id)
      && forall i :: 0 <= i < |index| ==> index[i].id in records && RowOf(records[index[i].id]) == index[i]
    }

    constructor ()
      ensures Valid() && index == [] && records == map[]
    {
      index, records, nextId := [], map[], 0;
    }

    /** The baseline that a lookup returns. */
    ghost function Latest(commit: Commit, identity: string): Option<Experiment>
      reads this
      requires Valid()
    {
      NewestIsLast(index, commit, identity);
      match Newest(index, commit, identity)
      case None => None
      case Some(i) => Some(records[index[i].id])
    }

    /** `latest_completed_baseline`: newest first. A completed baseline of this commit and this identity, the newest
        there is; None only if the index has no such row. */
    method LatestCompletedBaseline(commit: Commit, identity: string) returns (r: Option<Experiment>)
      requires Valid()
      ensures r == Latest(commit, identity)
      ensures r.Some? ==>
        r.value.commit == commit && r.value.identity == identity && r.value.kind == BaselineRun && !r.value.crashed
      ensures match r
        case None => forall j :: 0 <= j < |index| ==>
          index[j].commit != commit || index[j].identity != identity || index[j].kind != BaselineRun || index[j].crashed
        case Some(e) => exists i :: 0 <= i < |index| && RowOf(e) == index[i] && forall j :: i < j < |index| ==>
          index[j].commit != commit || index[j].identity != identity || index[j].kind != BaselineRun || index[j].crashed
    {
      NewestIsLast(index, commit, identity);
      var i := |index|;
      assert index[..i] == index;
      while i > 0
        invariant i <= |index| && Newest(index, commit, identity) == Newest(index[..i], commit, identity)
      {
        i := i - 1;
        assert index[..i + 1][..i] == index[..i];
        if IsBaselineRow(index[i], commit, identity) {
          return Some(records[index[i].id]);
        }
      }
      r := None;
    }

    /** The worker's own record of a run, under an id of its own. */
    method SaveRun(commit: Commit, identity: string, tasks: map<string, Option<Rollout>>, crashed: bool)
      returns (e: Experiment)
      requires Valid()
      modifies this`records, this`nextId
      ensures Valid()
      ensures e == Experiment(e.id, commit, identity, tasks, crashed, NoKind, None, None, None)
      ensures e.id !in old(records) && records == old(records)[e.id := e]
      ensures forall c, d :: Latest(c, d) == old(Latest(c, d))
    {
      e := Experiment(nextId, commit, identity, tasks, crashed, NoKind, None, None, None);
      records := records[e.id := e];
      nextId := nextId + 1;
      forall c, d ensures Latest(c, d) == old(Latest(c, d)) {
        NewestIsLast(index, c, d);
      }
    }

    /** `record_finalized_run`: the relational facts, the verdict and one index row. */
    method RecordFinalizedRun(e: Experiment, kind: RunKind, parent: Option<Commit>, baselineId: Option<nat>,
                              decision: Option<DecisionOutcome>) returns (updated: Experiment)
      requires Valid() && e.id in records && forall i :: 0 <= i < |index| ==> index[i].id != e.id
      modifies this`index, this`records
      ensures Valid()
      ensures updated == e.(kind := kind, parent := parent, baselineId := baselineId, decision := decision)
      ensures index == old(index) + [RowOf(updated)] && records == old(records)[e.id := updated]
      ensures forall c, d ::
        Latest(c, d) == if IsBaselineRow(RowOf(updated), c, d) then Some(updated) else old(Latest(c, d))
    {
      updated := e.(kind := kind, parent := parent, baselineId := baselineId, decision := decision);
      records := records[updated.id := updated];
      index := index + [RowOf(updated)];
      assert index[..|index| - 1] == old(index);
      forall c, d ensures
        Latest(c, d) == if IsBaselineRow(RowOf(updated), c, d) then Some(updated) else old(Latest(c, d))
      {
        NewestIsLast(old(index), c, d);
      }
    }
  }

  // ------------------------------------------------------------ what the session is driven by

  datatype SkipCause = NoCandidate | InvalidCandidate | MeasurementFailure

  /** The proposer's turn after capture, validation and the suite: refused, or a child commit of the base. */
  datatype Proposal = Refused(cause: SkipCause) | Captured(tree: string)

  /** An isolated measurement: a MeasurementError with what could be salvaged of the run, or a finished run
      and the commit the worker found checked out. */
  datatype Measurement =
    | Failure(salvaged: Option<map<string, Option<Rollout>>>)
    | Completed(commit: Commit, tasks: map<string, Option<Rollout>>)

  datatype BodyCall = CallBackward | CallStep

  /** Everything that is not the session's own: the proposal, the measurements, the calls of the loop body,
      whether it then leaves the loop, and whether the diagnosis raises. */
  datatype EpochScript = EpochScript(
    baseline: Measurement, proposal: Proposal, first: Measurement, second: Measurement, body: seq<BodyCall>,
    leaves: bool, diagnoseRaises: bool)

  /** The measurements of the candidate, attempt by attempt. */
  function Attempts(script: EpochScript): (ms: seq<Measurement>)
    ensures |ms| == MEASUREMENT_ATTEMPTS
  {
    [script.first, script.second]
  }

  /** How an epoch ends that has yielded a loss: by the loop body's calls alone, and the diagnosis. */
  function BodyEnding(script: EpochScript): Option<Ending> {
    if script.body != [] && script.body[0].CallStep? then Some(BodyRaised)
    else if script.leaves then Some(Abandoned)
    else if script.body == [] then Some(NotTrained)
    else if CallStep !in script.body then Some(NotApplied)
    else if script.diagnoseRaises then Some(DiagnosisRaised) else None
  }

  /** One epoch as it went down. */
  datatype Epoch =
    | Skipped(head: Commit, baseline: Experiment, cause: SkipCause)
    | Concluded(head: Commit, baseline: Experiment, loss: Loss, recorded: Experiment, headAfter: Commit)

  datatype Ending =
    | Finished | BreakerTripped | BaselineFailed | WrongRun | CriterionError
    | BodyRaised | Abandoned | NotTrained | NotApplied | DiagnosisRaised

  const MAX_CONSECUTIVE_SKIPS := 2
  const MEASUREMENT_ATTEMPTS := 2

  // ------------------------------------------------------------ what an epoch must look like

  predicate PromotedEpoch(e: Epoch) {
    e.Concluded? && e.recorded.decision == Some(Promoted)
  }

  /** The baseline is a run of HEAD. The recorded decision, HEAD and the optimizer's rule say the same thing; HEAD
      moves to a direct child or not at all; a promotion is by a run that keeps every solved task. */
  predicate EpochOk(shouldPromote: Loss -> bool, e: Epoch) {
    e.baseline.commit == e.head && (e.Concluded? ==>
      && e.loss.candidate.commit == e.recorded.commit && e.recorded.tasks == e.loss.candidate.tasks
      && e.recorded.commit.Child? && e.recorded.commit.parent == e.head
      && (PromotedEpoch(e) <==> shouldPromote(e.loss))
      && (PromotedEpoch(e) <==> e.headAfter == e.recorded.commit)
      && (e.headAfter == e.recorded.commit || e.headAfter == e.head)
      && (e.recorded.kind == if PromotedEpoch(e) then BaselineRun else CandidateRun)
      && (Negative(e.loss.value) ==> SolvedTasks(e.baseline) <= SolvedTasks(e.recorded)))
  }

  function HeadAfter(e: Epoch): Commit {
    if e.Skipped? then e.head else e.headAfter
  }

  /** What the next epoch must load. */
  function BaselineAfter(e: Epoch): Experiment {
    if PromotedEpoch(e) then e.recorded else e.baseline
  }

  predicate AnyConcluded(trace: seq<Epoch>) {
    trace != [] && (trace[|trace| - 1].Concluded? || AnyConcluded(trace[..|trace| - 1]))
  }

  lemma ConcludedPush(trace: seq<Epoch>, e: Epoch)
    ensures AnyConcluded(trace + [e]) <==> AnyConcluded(trace) || e.Concluded?
  {
    assert (trace + [e])[..|trace|] == trace;
  }

  predicate Linked(e: Epoch, e': Epoch) {
    e'.head == HeadAfter(e) && e'.baseline == BaselineAfter(e)
  }

  predicate SessionOk(shouldPromote: Loss -> bool, trace: seq<Epoch>) {
    && (forall i :: 0 <= i < |trace| ==> EpochOk(shouldPromote, trace[i]))
    && (forall i :: 0 <= i < |trace| - 1 ==> Linked(trace[i], trace[i + 1]))
    && (forall i :: 0 <= i < |trace| - 2 ==> !(trace[i].Skipped? && trace[i + 1].Skipped?))
  }

  /** The session's last two epochs were skipped. */
  predicate TwoSkips(trace: seq<Epoch>) {
    |trace| >= 2 && trace[|trace| - 1].Skipped? && trace[|trace| - 2].Skipped?
  }

  lemma SessionExtends(shouldPromote: Loss -> bool, trace: seq<Epoch>, e: Epoch)
    requires SessionOk(shouldPromote, trace) && EpochOk(shouldPromote, e) && !TwoSkips(trace)
    requires trace != [] ==> Linked(trace[|trace| - 1], e)
    ensures SessionOk(shouldPromote, trace + [e])
    ensures TwoSkips(trace + [e]) <==> trace != [] && trace[|trace| - 1].Skipped? && e.Skipped?
  {
    var t := trace + [e];
    forall i | 0 <= i < |t| - 1 ensures Linked(t[i], t[i + 1]) {
      if i < |trace| - 1 { assert Linked(trace[i], trace[i + 1]); }
    }
  }

  lemma {:induction false} ChildIsNoAncestor(c: Commit, b: Commit)
    requires IsAncestor(c, b)
    ensures Depth(c) <= Depth(b)
    decreases b
  {
    if c != b { ChildIsNoAncestor(c, b.parent); }
  }

  function Depth(c: Commit): nat {
    if c.Root? then 0 else 1 + Depth(c.parent)
  }

  /** A record under this session's identity measured a panel of this identity: the identity covers the
      configuration and the panel. Records of any other configuration may be in the store as well. */
  ghost predicate IdentityNamesPanel(
    records: map<nat, Experiment>, panel: set<string>, identityOf: set<string> -> string)
  {
    forall id :: id in records && records[id].identity == identityOf(panel) ==>
      identityOf(records[id].tasks.Keys) == identityOf(panel)
  }

  class Trainer {
    const harness: Parameter
    const store: RunStore
    const criterion: StrictPareto
    const optimizer: Optimizer
    const panel: set<string>
    /** The measurement identity of a panel under this session's configuration. */
    const identityOf: set<string> -> string

    ghost predicate Valid()
      reads this, store
    {
      && optimizer.harness == harness && store.Valid()
      && IdentityNamesPanel(store.records, panel, identityOf)
    }

    constructor (harness: Parameter, store: RunStore, criterion: StrictPareto, optimizer: Optimizer,
                 panel: set<string>, identityOf: set<string> -> string)
      requires optimizer.harness == harness && store.Valid()
      requires IdentityNamesPanel(store.records, panel, identityOf)
      ensures Valid() && this.harness == harness && this.store == store && this.optimizer == optimizer
      ensures this.panel == panel && this.identityOf == identityOf && this.criterion == criterion
    {
      this.harness, this.store, this.criterion, this.optimizer := harness, store, criterion, optimizer;
      this.panel, this.identityOf := panel, identityOf;
    }

    /** The user's loop body on the yielded loss. It is entered with neither a verdict nor a selection
        pending; any repetition of the two calls is allowed, and only a step before the first backward
        raises. */
    method LoopBody(loss: Loss, body: seq<BodyCall>) returns (raised: bool)
      requires Valid() && harness.grad == None && harness.applied == None
      requires loss.candidate.commit.Child? && loss.candidate.commit.parent == harness.head
      modifies harness
      ensures Valid()
      ensures raised <==> body != [] && body[0].CallStep?
      ensures raised ==> harness.head == old(harness.head)
      ensures !raised ==>
        var promotes := optimizer.shouldPromote(loss);
        && harness.grad == (if CallBackward in body then Some(loss) else None)
        && harness.applied == (if CallStep !in body then None
                               else Some(if promotes then loss.candidate.commit else old(harness.head)))
        && harness.head == (if CallStep in body && promotes then loss.candidate.commit else old(harness.head))
    {
      ghost var start := harness.head;
      var promotes := optimizer.shouldPromote(loss);
      if IsAncestor(loss.candidate.commit, start) { ChildIsNoAncestor(loss.candidate.commit, start); }
      var i := 0;
      while i < |body|
        invariant i <= |body| && Valid()
        invariant i > 0 ==> body[0].CallBackward?
        invariant harness.grad == if CallBackward in body[..i] then Some(loss) else None
        invariant harness.applied == if CallStep !in body[..i] then None
                                     else Some(if promotes then loss.candidate.commit else start)
        invariant harness.head == if CallStep in body[..i] && promotes then loss.candidate.commit else start
      {
        assert body[..i + 1] == body[..i] + [body[i]];
        if body[i].CallBackward? {
          Backward(loss, harness);
        } else {
          if i > 0 { assert body[0] in body[..i]; }
          var ok := optimizer.Step();
          if !ok { return true; }
        }
        i := i + 1;
      }
      assert body[..|body|] == body;
      raised := false;
    }

    /** `_conclude`: nothing is recorded unless both calls were made; afterwards nothing is pending. */
    method Conclude(base: Commit, baseline: Experiment, run: Experiment, diagnoseRaises: bool)
      returns (recorded: Option<Experiment>, ending: Option<Ending>)
      requires Valid() && run.id in store.records && run.identity == identityOf(run.tasks.Keys)
      requires forall i :: 0 <= i < |store.index| ==> store.index[i].id != run.id
      requires harness.grad.Some? ==> harness.grad.value.candidate.commit == run.commit
      modifies harness`grad, harness`applied, store
      ensures Valid()
      ensures old(harness.grad) == None || old(harness.applied) == None ==>
        && recorded == None && ending == Some(if old(harness.grad) == None then NotTrained else NotApplied)
        && store.index == old(store.index) && store.records == old(store.records)
      ensures old(harness.grad.Some? && harness.applied.Some?) ==>
        var promoted := old(harness.applied) == Some(run.commit);
        && recorded == Some(run.(kind := if promoted then BaselineRun else CandidateRun, parent := Some(base),
                                 baselineId := Some(baseline.id),
                                 decision := Some(if promoted then Promoted else Rejected)))
        && ending == (if diagnoseRaises then Some(DiagnosisRaised) else None)
        && harness.grad == None && harness.applied == None
        && forall c, d :: store.Latest(c, d) ==
             (if IsBaselineRow(RowOf(recorded.value), c, d) then recorded else old(store.Latest(c, d)))
    {
      if harness.grad == None { return None, Some(NotTrained); }
      if harness.applied == None { return None, Some(NotApplied); }
      var promoted := harness.applied.value == run.commit;
      var updated := store.RecordFinalizedRun(
        run, if promoted then BaselineRun else CandidateRun, Some(base), Some(baseline.id),
        Some(if promoted then Promoted else Rejected));
      harness.grad := None;
      harness.applied := None;
      recorded := Some(updated);
      ending := if diagnoseRaises then Some(DiagnosisRaised) else None;
    }

    /** One measurement as the worker leaves it: None is a MeasurementError without a salvaged run. */
    method Measure(m: Measurement, commit: Commit) returns (run: Option<Experiment>)
      requires Valid()
      modifies store
      ensures Valid() && store.index == old(store.index)
      ensures forall c, d :: store.Latest(c, d) == old(store.Latest(c, d))
      ensures run.Some? ==>
        && run.value.id in store.records && run.value.identity == identityOf(run.value.tasks.Keys)
        && (forall i :: 0 <= i < |store.index| ==> store.index[i].id != run.value.id)
        && run.value.crashed == m.Failure?
        && (m.Completed? ==> run.value.commit == m.commit && run.value.tasks == m.tasks)
      ensures m.Completed? ==> run.Some?
    {
      match m
      case Failure(None) => run := None;
      case Failure(Some(tasks)) =>
        var e := store.SaveRun(commit, identityOf(tasks.Keys), tasks, true);
        run := Some(e);
      case Completed(found, tasks) =>
        var e := store.SaveRun(found, identityOf(tasks.Keys), tasks, false);
        run := Some(e);
    }

    /** A run that ends the epoch without a verdict is still put on record. */
    method RecordFailed(run: Option<Experiment>, base: Commit, baseline: Experiment, decision: Option<DecisionOutcome>)
      requires Valid()
      requires run.Some? ==> run.value.id in store.records && run.value.identity == identityOf(run.value.tasks.Keys)
      requires run.Some? ==> forall i :: 0 <= i < |store.index| ==> store.index[i].id != run.value.id
      modifies store
      ensures Valid() && forall c, d :: store.Latest(c, d) == old(store.Latest(c, d))
    {
      if run.Some? {
        var _ := store.RecordFinalizedRun(run.value, CandidateRun, Some(base), Some(baseline.id), decision);
      }
    }

    /** The worker measured another commit or another panel. */
    predicate IsWrong(m: Measurement, commit: Commit, baseline: Experiment) {
      m.Completed? && (m.tasks.Keys != baseline.tasks.Keys || m.commit != commit)
    }

    predicate IsRunOf(c: Experiment, m: Measurement, commit: Commit) {
      m.Completed? && c.tasks == m.tasks && c.commit == commit == m.commit
    }

    /** The measurement is a run of the right commit and panel, with these results. */
    predicate IsRightRun(c: Experiment, m: Measurement, commit: Commit, baseline: Experiment) {
      IsRunOf(c, m, commit) && !IsWrong(m, commit, baseline)
    }

    /** A run of these results is judged unmeasurable: its untrusted tasks decide. */
    ghost predicate Undecidable(m: Measurement, commit: Commit, baseline: Experiment) {
      exists c ::
        && IsRightRun(c, m, commit, baseline) && !FailsOnMetric(criterion.secondaryMetrics, baseline, c)
        && ExtremesDiffer(criterion.secondaryMetrics, baseline, c)
    }

    /** A run of these results is rejected by a metric. */
    ghost predicate RejectsInput(m: Measurement, commit: Commit, baseline: Experiment) {
      exists c :: IsRightRun(c, m, commit, baseline) && FailsOnMetric(criterion.secondaryMetrics, baseline, c)
    }

    /** The attempt calls for another one. */
    ghost predicate Retried(m: Measurement, commit: Commit, baseline: Experiment) {
      m.Failure? || Undecidable(m, commit, baseline)
    }

    ghost predicate AbortsWith(m: Measurement, commit: Commit, baseline: Experiment, ending: Ending) {
      || (ending.WrongRun? && IsWrong(m, commit, baseline))
      || (ending.CriterionError? && RejectsInput(m, commit, baseline))
    }

    /** The first attempt that is not retried aborts the epoch. */
    ghost predicate Aborted(ms: seq<Measurement>, commit: Commit, baseline: Experiment, ending: Ending)
      requires |ms| == MEASUREMENT_ATTEMPTS
    {
      || AbortsWith(ms[0], commit, baseline, ending)
      || (Retried(ms[0], commit, baseline) && AbortsWith(ms[1], commit, baseline, ending))
    }

    /** The first attempt that is not retried has this verdict. */
    ghost predicate Decided(ms: seq<Measurement>, commit: Commit, baseline: Experiment, loss: Loss)
      requires |ms| == MEASUREMENT_ATTEMPTS
    {
      var c := loss.candidate;
      && (IsRightRun(c, ms[0], commit, baseline)
          || (Retried(ms[0], commit, baseline) && IsRightRun(c, ms[1], commit, baseline)))
      && !FailsOnMetric(criterion.secondaryMetrics, baseline, c)
      && !ExtremesDiffer(criterion.secondaryMetrics, baseline, c)
      && (Negative(loss.value) <==> PromotionOrder.Beats(criterion.secondaryMetrics, c, baseline))
    }

    /** The funnel: measure and judge, once more after an infrastructure failure or an unmeasurable
        verdict. A skip is a failure of both attempts; an aborting error is returned as an ending. */
    method MeasureAndJudge(base: Commit, commit: Commit, baseline: Experiment, ms: seq<Measurement>)
      returns (loss: Option<Loss>, run: Option<Experiment>, ending: Option<Ending>)
      requires Valid() && |ms| == MEASUREMENT_ATTEMPTS
      modifies store
      ensures Valid() && forall c, d :: store.Latest(c, d) == old(store.Latest(c, d))
      ensures loss.Some? || ending.Some? ==> store.index == old(store.index)
      ensures ending.Some? ==> loss == None && Aborted(ms, commit, baseline, ending.value)
      ensures loss == None && ending == None ==>
        Retried(ms[0], commit, baseline) && Retried(ms[1], commit, baseline)
      ensures loss.Some? ==> Decided(ms, commit, baseline, loss.value)
      ensures loss.Some? ==>
        && ending == None && run == Some(loss.value.candidate)
        && run.value.commit == commit && run.value.tasks.Keys == baseline.tasks.Keys
        && run.value.identity == identityOf(run.value.tasks.Keys) && !run.value.crashed
        && run.value.id in store.records
        && (forall i :: 0 <= i < |store.index| ==> store.index[i].id != run.value.id)
    {
      loss, run, ending := None, None, None;
      for attempt := 0 to MEASUREMENT_ATTEMPTS
        invariant Valid() && forall c, d :: store.Latest(c, d) == old(store.Latest(c, d))
        invariant loss == None && ending == None
        invariant forall i :: 0 <= i < attempt ==> Retried(ms[i], commit, baseline)
        invariant attempt < MEASUREMENT_ATTEMPTS ==> store.index == old(store.index)
      {
        var retry := attempt == 0;
        run := Measure(ms[attempt], commit);
        if ms[attempt].Failure? {
          if !retry { RecordFailed(run, base, baseline, None); }
        } else {
          if run.value.tasks.Keys != baseline.tasks.Keys || run.value.commit != commit {
            return None, None, Some(WrongRun);
          }
          PromotionOrder.RestrictToOwnPanel(baseline);
          assert IsRightRun(run.value, ms[attempt], commit, baseline);
          var j := criterion.Judge(run.value, baseline);
          match j {
            case Judged(l) => return Some(l), run, None;
            case Unmeasurable(_, _) =>
              if !retry { RecordFailed(run, base, baseline, Some(InvalidInfra)); }
            case UnknownTasks => return None, None, Some(CriterionError);
            case MetricFailed => return None, None, Some(CriterionError);
          }
        }
      }
      run := None;
    }

    /** The epoch is the one its script calls for: it skips for the proposal's cause, or because no attempt gave
        a decidable run, and it concludes on the proposed commit. */
    ghost predicate Answers(e: Epoch, script: EpochScript) {
      match e
      case Skipped(head, baseline, cause) =>
        if script.proposal.Refused? then cause == script.proposal.cause
        else
          && cause == MeasurementFailure
          && Retried(script.first, Child(head, script.proposal.tree), baseline)
          && Retried(script.second, Child(head, script.proposal.tree), baseline)
      case Concluded(head, baseline, loss, recorded, _) =>
        && script.proposal.Captured? && recorded.commit == Child(head, script.proposal.tree)
        && Decided(Attempts(script), recorded.commit, baseline, loss)
        && BodyEnding(script) in {None, Some(DiagnosisRaised)}
    }

    /** The script makes an epoch end like this without a record: the first attempt that counts aborts it, or it
        has a verdict and the loop body does. */
    ghost predicate Stops(script: EpochScript, head: Commit, baseline: Experiment, ending: Ending) {
      && script.proposal.Captured?
      && var commit := Child(head, script.proposal.tree);
      || Aborted(Attempts(script), commit, baseline, ending)
      || (BodyEnding(script) == Some(ending) && !ending.DiagnosisRaised?
          && exists loss :: Decided(Attempts(script), commit, baseline, loss))
    }

    lemma StopsHow(script: EpochScript, head: Commit, baseline: Experiment, ending: Ending)
      requires Stops(script, head, baseline, ending)
      ensures ending in {WrongRun, CriterionError, BodyRaised, Abandoned, NotTrained, NotApplied}
    {
    }

    /** The yielded loss: the loop body's calls and the conclusion. */
    method Train(baseline: Experiment, loss: Loss, run: Experiment, script: EpochScript)
      returns (epoch: Option<Epoch>, ending: Option<Ending>)
      requires Valid() && run == loss.candidate && run.id in store.records
      requires forall i :: 0 <= i < |store.index| ==> store.index[i].id != run.id
      requires script.proposal.Captured? && run.commit == Child(harness.head, script.proposal.tree)
      requires run.identity == identityOf(run.tasks.Keys) && run.tasks.Keys == baseline.tasks.Keys && !run.crashed
      requires store.Latest(harness.head, identityOf(panel)) == Some(baseline)
      requires baseline.commit == harness.head
      requires baseline.identity == identityOf(panel) == identityOf(baseline.tasks.Keys)
      requires Negative(loss.value) ==> SolvedTasks(baseline) <= SolvedTasks(run)
      modifies harness, store
      ensures Valid() && ending == BodyEnding(script)
      ensures epoch.Some? <==> ending in {None, Some(DiagnosisRaised)}
      ensures epoch == None ==> store.index == old(store.index)
      ensures epoch.Some? ==>
        && epoch.value.Concluded? && epoch.value.head == old(harness.head) && epoch.value.baseline == baseline
        && epoch.value.loss == loss && epoch.value.recorded.commit == run.commit
        && EpochOk(optimizer.shouldPromote, epoch.value)
        && harness.head == HeadAfter(epoch.value) && harness.grad == None && harness.applied == None
        && store.Latest(harness.head, identityOf(panel)) == Some(BaselineAfter(epoch.value))
        && BaselineAfter(epoch.value).identity == identityOf(panel) == identityOf(BaselineAfter(epoch.value).tasks.Keys)
        && CallBackward in script.body && CallStep in script.body
    {
      var base := harness.head;
      harness.grad := None;
      harness.applied := None;
      var raised := LoopBody(loss, script.body);
      if raised { return None, Some(BodyRaised); }
      if script.leaves { return None, Some(Abandoned); }
      var recorded, concluded := Conclude(base, baseline, run, script.diagnoseRaises);
      if recorded == None { return None, concluded; }
      epoch, ending := Some(Concluded(base, baseline, loss, recorded.value, harness.head)), concluded;
    }

    /** `_epoch`, from the proposal to the conclusion. An epoch whose body raises or omits one of its two
        calls puts nothing on the index. */
    method RunEpoch(baseline: Experiment, script: EpochScript)
      returns (epoch: Option<Epoch>, ending: Option<Ending>, ghost loss: Option<Loss>)
      requires Valid()
      requires store.Latest(harness.head, identityOf(panel)) == Some(baseline)
      requires baseline.commit == harness.head
      requires baseline.identity == identityOf(panel) == identityOf(baseline.tasks.Keys)
      modifies harness, store
      ensures Valid()
      ensures epoch.Some? ==>
        && EpochOk(optimizer.shouldPromote, epoch.value)
        && epoch.value.head == old(harness.head) && epoch.value.baseline == baseline
        && harness.head == HeadAfter(epoch.value)
        && store.Latest(harness.head, identityOf(panel)) == Some(BaselineAfter(epoch.value))
        && BaselineAfter(epoch.value).identity == identityOf(panel) == identityOf(BaselineAfter(epoch.value).tasks.Keys)
        && (if epoch.value.Concluded? then harness.grad == None && harness.applied == None
            else harness.grad == old(harness.grad) && harness.applied == old(harness.applied))
        && ending == (if epoch.value.Concluded? then BodyEnding(script) else None)
        && ending in {None, Some(DiagnosisRaised)}
        && (epoch.value.Concluded? ==> CallBackward in script.body && CallStep in script.body)
      ensures epoch == None ==>
        ending.Some? && Stops(script, old(harness.head), baseline, ending.value) && store.index == old(store.index)
      ensures script.proposal.Refused? ==>
        epoch == Some(Skipped(old(harness.head), baseline, script.proposal.cause)) && ending == None
      ensures epoch.Some? ==> Answers(epoch.value, script)
      ensures loss.Some? ==>
        && script.proposal.Captured? && ending == BodyEnding(script)
        && Decided(Attempts(script), Child(old(harness.head), script.proposal.tree), baseline, loss.value)
        && (epoch.Some? ==> epoch.value.Concluded? && epoch.value.loss == loss.value)
    {
      hide Retried, Aborted, ExtremesDiffer, FailsOnMetric;
      var base := harness.head;
      loss := None;
      if script.proposal.Refused? {
        return Some(Skipped(base, baseline, script.proposal.cause)), None, None;
      }
      var commit := Child(base, script.proposal.tree);
      var judged, run, failure := MeasureAndJudge(base, commit, baseline, Attempts(script));
      if failure.Some? { return None, failure, None; }
      if judged == None { return Some(Skipped(base, baseline, MeasurementFailure)), None, None; }
      loss := judged;
      epoch, ending := Train(baseline, judged.value, run.value, script);
    }

    /** The measurement is a complete run of the panel at `head`. */
    predicate MeasuresPanel(m: Measurement, head: Commit) {
      m.Completed? && m.tasks.Keys == panel && m.commit == head
    }

    /** The baseline that is loaded: the one on record, or else what was measured. */
    predicate IsLoaded(m: Measurement, head: Commit, known: Option<Experiment>, baseline: Experiment) {
      if known.Some? then baseline == known.value
      else MeasuresPanel(m, head) && baseline.tasks == m.tasks && baseline.commit == head
    }

    /** The baseline of the current HEAD: reused if one is on record, measured otherwise. */
    method LoadBaseline(m: Measurement) returns (r: Option<Experiment>)
      requires Valid()
      modifies store
      ensures Valid()
      ensures r.Some? ==>
        && store.Latest(harness.head, identityOf(panel)) == r && r.value.commit == harness.head
        && r.value.kind == BaselineRun && !r.value.crashed && r.value.identity == identityOf(panel) == identityOf(r.value.tasks.Keys)
        && IsLoaded(m, harness.head, old(store.Latest(harness.head, identityOf(panel))), r.value)
      ensures r == None ==>
        old(store.Latest(harness.head, identityOf(panel))) == None && !MeasuresPanel(m, harness.head)
    {
      NewestIsLast(store.index, harness.head, identityOf(panel));
      r := store.LatestCompletedBaseline(harness.head, identityOf(panel));
      if r.Some? { return; }
      var run := Measure(m, harness.head);
      if m.Failure? || run.value.tasks.Keys != panel || run.value.commit != harness.head { return None; }
      var recorded := store.RecordFinalizedRun(run.value, BaselineRun, None, None, None);
      r := Some(recorded);
    }

    ghost predicate AllAnswer(trace: seq<Epoch>, scripts: seq<EpochScript>)
      requires |trace| <= |scripts|
    {
      forall i :: 0 <= i < |trace| ==> Answers(trace[i], scripts[i])
    }

    /** HEAD when the next epoch begins. */
    function NextHead(trace: seq<Epoch>, head: Commit): Commit {
      if trace == [] then head else HeadAfter(trace[|trace| - 1])
    }

    /** The baseline on record for it. */
    function NextKnown(trace: seq<Epoch>, known: Option<Experiment>): Option<Experiment> {
      if trace == [] then known else Some(BaselineAfter(trace[|trace| - 1]))
    }

    /** The first epoch works on what the session began with. */
    ghost predicate Begins(trace: seq<Epoch>, scripts: seq<EpochScript>, head: Commit, known: Option<Experiment>)
      requires |trace| <= |scripts|
    {
      trace != [] ==> trace[0].head == head && IsLoaded(scripts[0].baseline, head, known, trace[0].baseline)
    }

    /** No epoch's diagnosis raised. */
    predicate AllGoOn(trace: seq<Epoch>, scripts: seq<EpochScript>)
      requires |trace| <= |scripts|
    {
      forall i :: 0 <= i < |trace| && trace[i].Concluded? ==> BodyEnding(scripts[i]) == None
    }

    /** The epochs so far are a sound session of their scripts. */
    ghost predicate SoFar(trace: seq<Epoch>, scripts: seq<EpochScript>)
      requires |trace| <= |scripts|
    {
      SessionOk(optimizer.shouldPromote, trace) && AllAnswer(trace, scripts)
    }

    /** The script makes a session stop like this before its epoch is on record. */
    ghost predicate CannotRun(script: EpochScript, head: Commit, known: Option<Experiment>, ending: Ending) {
      if ending.BaselineFailed? then known == None && !MeasuresPanel(script.baseline, head)
      else exists b :: IsLoaded(script.baseline, head, known, b) && Stops(script, head, b, ending)
    }

    /** How a session that began at `head`, with baseline `known` on record, ended as it did. */
    ghost predicate Accounted(
      trace: seq<Epoch>, scripts: seq<EpochScript>, maxEpochs: nat, head: Commit, known: Option<Experiment>, ending: Ending)
      requires |trace| <= maxEpochs <= |scripts|
    {
      var n := |trace|;
      match ending
      case Finished => n == maxEpochs && !TwoSkips(trace) && AllGoOn(trace, scripts)
      case BreakerTripped => TwoSkips(trace) && AllGoOn(trace, scripts)
      case DiagnosisRaised =>
        n > 0 && trace[n - 1].Concluded? && BodyEnding(scripts[n - 1]) == Some(ending) && AllGoOn(trace[..n - 1], scripts)
      case _ =>
        && n < maxEpochs && !TwoSkips(trace) && AllGoOn(trace, scripts)
        && CannotRun(scripts[n], NextHead(trace, head), NextKnown(trace, known), ending)
    }

    lemma SoFarPush(trace: seq<Epoch>, scripts: seq<EpochScript>, head: Commit, known: Option<Experiment>, e: Epoch)
      requires |trace| < |scripts| && SoFar(trace, scripts) && Begins(trace, scripts, head, known)
      requires Answers(e, scripts[|trace|]) && EpochOk(optimizer.shouldPromote, e) && !TwoSkips(trace)
      requires e.head == NextHead(trace, head)
      requires IsLoaded(scripts[|trace|].baseline, e.head, NextKnown(trace, known), e.baseline)
      ensures SoFar(trace + [e], scripts) && Begins(trace + [e], scripts, head, known)
      ensures AllGoOn(trace, scripts) && (e.Concluded? ==> BodyEnding(scripts[|trace|]) == None) ==>
        AllGoOn(trace + [e], scripts)
      ensures NextHead(trace + [e], head) == HeadAfter(e) && NextKnown(trace + [e], known) == Some(BaselineAfter(e))
      ensures (AnyConcluded(trace + [e]) <==> AnyConcluded(trace) || e.Concluded?)
      ensures TwoSkips(trace + [e]) <==> trace != [] && trace[|trace| - 1].Skipped? && e.Skipped?
    {
      hide SessionOk, EpochOk, Answers, BodyEnding, AnyConcluded, BaselineAfter, HeadAfter;
      SessionExtends(optimizer.shouldPromote, trace, e);
      ConcludedPush(trace, e);
    }

    /** One pass of the loop: load the baseline, then run the epoch. */
    method LoadAndRun(script: EpochScript) returns (epoch: Option<Epoch>, ending: Option<Ending>)
      requires Valid()
      modifies harness, store
      ensures Valid()
      ensures epoch.Some? ==>
        && EpochOk(optimizer.shouldPromote, epoch.value) && Answers(epoch.value, script)
        && epoch.value.head == old(harness.head) && harness.head == HeadAfter(epoch.value)
        && store.Latest(harness.head, identityOf(panel)) == Some(BaselineAfter(epoch.value))
        && ending == (if epoch.value.Concluded? then BodyEnding(script) else None)
        && ending in {None, Some(DiagnosisRaised)}
        && IsLoaded(script.baseline, old(harness.head), old(store.Latest(harness.head, identityOf(panel))), epoch.value.baseline)
      ensures epoch.Some? && epoch.value.Concluded? ==> harness.grad == None && harness.applied == None
      ensures (epoch.Some? && epoch.value.Skipped?) || ending == Some(BaselineFailed) ==>
        harness.grad == old(harness.grad) && harness.applied == old(harness.applied)
      ensures ending == Some(BaselineFailed) ==> harness.head == old(harness.head)
      ensures epoch == None ==>
        && ending.Some? && ending.value !in {Finished, BreakerTripped, DiagnosisRaised}
        && CannotRun(script, old(harness.head), old(store.Latest(harness.head, identityOf(panel))), ending.value)
    {
      hide EpochOk, Answers, IsLoaded, Stops, BodyEnding, MeasuresPanel, HeadAfter, BaselineAfter;
      var baseline := LoadBaseline(script.baseline);
      if baseline == None { return None, Some(BaselineFailed); }
      ghost var loss;
      ghost var head := harness.head;
      epoch, ending, loss := RunEpoch(baseline.value, script);
      if epoch == None {
        StopsHow(script, head, baseline.value, ending.value);
      }
    }

    /** `_epochs`. For every proposer, measurement and loop body: the trace is a sound session (see
        `SessionOk`), the next epoch loads exactly the run that was promoted, no epoch starts after two
        consecutive skips, the scripts account for the way the session ends (see `Accounted`), and unless the loop
        body left the session nothing is pending at its end. */
    method Epochs(maxEpochs: nat, scripts: seq<EpochScript>) returns (trace: seq<Epoch>, ending: Ending)
      requires Valid() && |scripts| >= maxEpochs
      modifies harness, store
      ensures Valid() && |trace| <= maxEpochs
      ensures SoFar(trace, scripts)
      ensures Begins(trace, scripts, old(harness.head), old(store.Latest(harness.head, identityOf(panel))))
      ensures Accounted(trace, scripts, maxEpochs, old(harness.head), old(store.Latest(harness.head, identityOf(panel))), ending)
      ensures ending in {Finished, BreakerTripped, BaselineFailed, DiagnosisRaised} ==>
        && (if AnyConcluded(trace) then harness.grad == None && harness.applied == None
            else harness.grad == old(harness.grad) && harness.applied == old(harness.applied))
        && harness.head == NextHead(trace, old(harness.head))
    {
      hide SoFar, Begins, AllGoOn, Answers, CannotRun, EpochOk, IsLoaded;
      trace := [];
      var skips := 0;
      ghost var id, head, known := identityOf(panel), harness.head, store.Latest(harness.head, identityOf(panel));
      NothingYet(scripts, head, known);
      for index := 0 to maxEpochs
        invariant Valid() && |trace| == index && SoFar(trace, scripts)
        invariant Begins(trace, scripts, head, known) && AllGoOn(trace, scripts)
        invariant if AnyConcluded(trace) then harness.grad == None && harness.applied == None
                  else harness.grad == old(harness.grad) && harness.applied == old(harness.applied)
        invariant harness.head == NextHead(trace, head) && store.Latest(harness.head, id) == NextKnown(trace, known)
        invariant !TwoSkips(trace)
        invariant skips == if trace != [] && trace[|trace| - 1].Skipped? then 1 else 0
      {
        var epoch, failure := LoadAndRun(scripts[index]);
        if epoch == None { return trace, failure.value; }
        SoFarPush(trace, scripts, head, known, epoch.value);
        assert (trace + [epoch.value])[..index] == trace;
        trace := trace + [epoch.value];
        if failure.Some? { return trace, failure.value; }
        skips := if epoch.value.Skipped? then skips + 1 else 0;
        if skips >= MAX_CONSECUTIVE_SKIPS { return trace, BreakerTripped; }
      }
      ending := Finished;
    }

    /** With the greedy rule an epoch that concludes promotes if and only if its run beats the baseline, which is the
        run of HEAD; and then HEAD is the run's commit and the run the next baseline. */
    lemma GreedyPromotesIff(trace: seq<Epoch>, scripts: seq<EpochScript>, i: nat)
      requires |trace| <= |scripts| && SoFar(trace, scripts) && optimizer.shouldPromote == Greedy
      requires i < |trace| && trace[i].Concluded?
      ensures var e := trace[i];
        && e.baseline.commit == e.head && e.recorded.tasks == e.loss.candidate.tasks
        && (PromotionOrder.Beats(criterion.secondaryMetrics, e.loss.candidate, e.baseline) <==> e.headAfter == e.recorded.commit)
        && (i + 1 < |trace| && e.headAfter == e.recorded.commit ==> trace[i + 1].baseline == e.recorded)
    {
      assert EpochOk(optimizer.shouldPromote, trace[i]) && Answers(trace[i], scripts[i]);
      if i + 1 < |trace| { assert Linked(trace[i], trace[i + 1]); }
    }

    lemma NothingYet(scripts: seq<EpochScript>, head: Commit, known: Option<Experiment>)
      ensures SoFar([], scripts) && Begins([], scripts, head, known) && AllGoOn([], scripts)
    {
    }
  }

  // ------------------------------------------------------------ what a session guarantees

  /** A greedy session never loses a solved task: the baselines' solved sets only grow. */
  lemma {:induction false} SolvedTasksNeverShrink(trace: seq<Epoch>, i: nat, j: nat)
    requires SessionOk(Greedy, trace) && i <= j < |trace|
    ensures SolvedTasks(trace[i].baseline) <= SolvedTasks(trace[j].baseline) <= SolvedTasks(BaselineAfter(trace[j]))
    decreases j - i
  {
    assert EpochOk(Greedy, trace[j]);
    if i < j {
      SolvedTasksNeverShrink(trace, i, j - 1);
      assert Linked(trace[j - 1], trace[j]);
    }
  }

  /** HEAD only moves to direct children: the last HEAD descends from every earlier one. */
  lemma {:induction false} HeadOnlyDescends(shouldPromote: Loss -> bool, trace: seq<Epoch>, i: nat, j: nat)
    requires SessionOk(shouldPromote, trace) && i <= j < |trace|
    ensures IsAncestor(trace[i].head, HeadAfter(trace[j]))
    decreases j - i
  {
    assert EpochOk(shouldPromote, trace[j]);
    if i < j {
      HeadOnlyDescends(shouldPromote, trace, i, j - 1);
      assert Linked(trace[j - 1], trace[j]);
      assert trace[j].head == HeadAfter(trace[j - 1]);
    } else {
      assert IsAncestor(trace[j].head, trace[j].head);
    }
  }
}
