/** The episode loop and its classifier (src/rollout/episode.py:171-353, 474-505). The policy, the executor,
    the clocks and the verifier may do anything at every turn. */
module EpisodeLoop {
  import opened EnvSteps
  import opened Records
  import opened Telemetry

  datatype ChainStep = ChainStep(action: EnvSteps.Action, result: StepResult, timedOut: bool)

  predicate Ends(r: StepResult) { r.terminated || r.truncated }

  datatype Origin = PolicyOrigin | EnvOrigin

  /** What can cross the loop's boundaries; drift and defects leave `run_task_loop` itself. */
  datatype Raised = PolicyCrash | EnvCrash | Unscorable | SetupTimeout | TaskTimeout | StallTimeout | Drift | Defect

  predicate Escapes(r: Raised) { r.Drift? || r.Defect? }

  datatype End =
    | Submitted(final: StepResult) | Budget(final: StepResult) | StepCap(last: Option<StepResult>)
    | GaveUp(last: Option<StepResult>) | Failed(raised: Raised)

  datatype LoopOutcome = LoopOutcome(end: End, steps: Option<nat>)

  /** What the policy asks for by name, before it is rendered. */
  datatype Request = ToolRequest(command: RunAction) | SubmitRequest | BrokenRequest

  datatype ActReply = Acts(requests: seq<Request>) | RepeatedCutoff | ActRaises(raised: Raised)

  datatype StepReply = Steps(result: StepResult) | Expired | StepRaises(raised: Raised)

  const TIMED_OUT := StepResult(RawOutput("", None, None, "", "timed out"), 0.0, false, true, map[], map[], None)

  /** Only the last step of a chain ends the episode. */
  ghost predicate OnlyLastEnds(chain: seq<ChainStep>) {
    forall k :: 0 <= k < |chain| - 1 ==> !chain[k].result.terminated && !chain[k].result.truncated
  }

  /** A verify that returns is reported as terminated and not truncated, as `execute_env_action` does. */
  ghost predicate VerifiesEnd(chain: seq<ChainStep>) {
    forall k :: 0 <= k < |chain| && chain[k].action.Verify? && !chain[k].timedOut ==>
      chain[k].result.terminated && !chain[k].result.truncated
  }

  /** A verify is executed at most once and nothing after it; a timed-out step likewise. */
  lemma VerifyOnlyLast(chain: seq<ChainStep>, k: nat)
    requires WellFormedChain(chain) && k < |chain|
    requires chain[k].action.Verify? || chain[k].timedOut
    ensures k == |chain| - 1
  {
  }

  ghost predicate TimeoutsEnd(chain: seq<ChainStep>) {
    forall k :: 0 <= k < |chain| && chain[k].timedOut ==>
      chain[k].result.truncated && !chain[k].result.terminated && chain[k].result.reward == 0.0
  }

  ghost predicate WellFormedChain(chain: seq<ChainStep>) {
    OnlyLastEnds(chain) && VerifiesEnd(chain) && TimeoutsEnd(chain)
  }

  predicate Running(chain: seq<ChainStep>) {
    chain == [] || !(chain[|chain| - 1].result.terminated || chain[|chain| - 1].result.truncated)
  }

  function LastResult(chain: seq<ChainStep>): Option<StepResult> {
    if chain == [] then None else Some(chain[|chain| - 1].result)
  }

  // ------------------------------------------------------------ the calls to the executor

  /** How a call to the executor ended: with its result, by its deadline, or with an exception. */
  datatype CallEnd = Returned | Cancelled | Threw

  datatype ExecutorCall =
    | ProvisionCall(end: CallEnd)
    | RunCall(action: RunAction, end: CallEnd)
    | PrepareCall(served: bool, end: CallEnd)
    | VerifyCall(end: CallEnd)

  /** What an executor may be asked next: a run or a submit; the verdict it announced it would give live;
      nothing. `Misused`: it was asked something else. */
  datatype Talk = Open | Prepared | Over | Misused

  function Reply(talk: Talk, c: ExecutorCall): Talk {
    match talk
    case Open =>
      match c {
        case ProvisionCall(end) => if end.Returned? then Open else Over
        case RunCall(_, end) => if end.Returned? then Open else Over
        case PrepareCall(served, end) => if end.Returned? && !served then Prepared else Over
        case VerifyCall(_) => Misused
      }
    case Prepared => if c.VerifyCall? then Over else Misused
    case _ => Misused
  }

  function Heard(calls: seq<ExecutorCall>): Talk {
    if calls == [] then Open else Reply(Heard(calls[..|calls| - 1]), calls[|calls| - 1])
  }

  /** The action a call puts on the chain: a step that returned or ran out of time, or a served verdict. */
  function Performs(c: ExecutorCall): seq<EnvSteps.Action> {
    match c
    case ProvisionCall(_) => []
    case RunCall(a, end) => if end.Threw? then [] else [EnvSteps.Action.Run(a)]
    case PrepareCall(served, end) => if end.Returned? && served then [Verify] else []
    case VerifyCall(end) => if end.Threw? then [] else [Verify]
  }

  function Performed(calls: seq<ExecutorCall>): seq<EnvSteps.Action> {
    if calls == [] then [] else Performed(calls[..|calls| - 1]) + Performs(calls[|calls| - 1])
  }

  function ActionsOf(chain: seq<ChainStep>): (a: seq<EnvSteps.Action>)
    ensures |a| == |chain| && forall k :: 0 <= k < |chain| ==> a[k] == chain[k].action
  {
    seq(|chain|, k requires 0 <= k < |chain| => chain[k].action)
  }

  lemma CallPush(calls: seq<ExecutorCall>, c: ExecutorCall)
    ensures Heard(calls + [c]) == Reply(Heard(calls), c)
    ensures Performed(calls + [c]) == Performed(calls) + Performs(c)
  {
    assert (calls + [c])[..|calls|] == calls;
  }

  /** An executor that is not misused is never called again once a call was cut off by its deadline or raised,
      nor after a verdict; and it is asked for a live verdict exactly when it has just announced one. */
  lemma {:induction false} NoCallAfterFailure(calls: seq<ExecutorCall>, k: nat)
    requires !Heard(calls).Misused? && k < |calls| - 1
    ensures calls[k].end.Returned? && !calls[k].VerifyCall?
    ensures calls[k].PrepareCall? ==> !calls[k].served
    ensures calls[k].PrepareCall? <==> calls[k + 1].VerifyCall?
  {
    var init := calls[..|calls| - 1];
    if k < |init| - 1 {
      NoCallAfterFailure(init, k);
    } else {
      assert init[..|init| - 1] == calls[..k];
    }
  }

  // ------------------------------------------------------------ the trace of executed steps

  /** The `step_completed` rows of a trace, in order. */
  function DoneRows(trace: seq<Row>): seq<Row> {
    if trace == [] then []
    else DoneRows(trace[..|trace| - 1]) + if trace[|trace| - 1].StepDone? then [trace[|trace| - 1]] else []
  }

  lemma DoneRowsPush(trace: seq<Row>, r: Row)
    ensures DoneRows(trace + [r]) == DoneRows(trace) + if r.StepDone? then [r] else []
  {
    assert (trace + [r])[..|trace|] == trace;
  }

  /** The rows of one batch: consecutive steps from `from` on, call indices from zero. */
  function BatchRows(done: seq<ChainStep>, from: nat): (rows: seq<Row>)
    ensures |rows| == |done|
  {
    seq(|done|, k requires 0 <= k < |done| => StepDone(from + k, k, Ends(done[k].result)))
  }

  lemma BatchRowsPush(done: seq<ChainStep>, from: nat, k: nat, rows: seq<Row>)
    requires k < |done|
    ensures rows + BatchRows(done, from)[..k + 1]
      == rows + BatchRows(done, from)[..k] + [StepDone(from + k, k, Ends(done[k].result))]
  {
  }

  /** Row `k` tells of chain step `k`, and marks it terminal exactly when it ended the episode. */
  ghost predicate TellsOf(rows: seq<Row>, chain: seq<ChainStep>) {
    |rows| <= |chain| && forall k :: 0 <= k < |rows| ==> rows[k].StepDone? && rows[k].terminal == Ends(chain[k].result)
  }

  lemma BatchTells(rows: seq<Row>, chain: seq<ChainStep>, more: seq<ChainStep>, n: nat, from: nat)
    requires TellsOf(rows, chain) && |rows| == |chain| && n <= |more|
    ensures TellsOf(rows + BatchRows(more, from)[..n], chain + more)
    ensures n == |more| ==> |rows + BatchRows(more, from)[..n]| == |chain + more|
    ensures rows + BatchRows(more, from)[..0] == rows
  {
  }

  // ------------------------------------------------------------ the surroundings

  /** Editable policy code runs: it may call the model any number of times, and it may fail. */
  method PolicyRuns(t: RolloutTelemetry) returns (raised: Option<Raised>)
    requires t.Valid()
    modifies t
    ensures t.Valid() && t.stepsTaken == old(t.stepsTaken) && DoneRows(t.trace) == DoneRows(old(t.trace))
    ensures raised.Some? ==> raised.value in {PolicyCrash, EnvCrash, Defect}
  {
    var calls: nat := *;
    while calls > 0
      invariant t.Valid() && t.stepsTaken == old(t.stepsTaken) && DoneRows(t.trace) == DoneRows(old(t.trace))
    {
      var rejected: bool := *;
      DoneRowsPush(t.trace, Call(t.stepsTaken + 1, t.pending, rejected));
      t.OnCall(rejected);
      calls := calls - 1;
    }
    raised := *;
    if raised.Some? && raised.value !in {PolicyCrash, EnvCrash, Defect} { raised := Some(PolicyCrash); }
  }

  method Act(t: RolloutTelemetry) returns (r: ActReply)
    requires t.Valid()
    modifies t
    ensures t.Valid() && t.stepsTaken == old(t.stepsTaken) && DoneRows(t.trace) == DoneRows(old(t.trace))
    ensures r.ActRaises? ==> r.raised in {PolicyCrash, EnvCrash, Defect, TaskTimeout, StallTimeout}
  {
    var raised := PolicyRuns(t);
    if raised.Some? { return ActRaises(raised.value); }
    r := *;
    if r.ActRaises? && r.raised !in {TaskTimeout, StallTimeout} { r := ActRaises(PolicyCrash); }
  }

  /** What a call to the executor may raise: only a replaying executor finds drift, a live one delegates to
      the environment (src/rollout/execution.py:60-76). */
  predicate ExecutorRaises(raised: Raised, canDrift: bool) {
    raised !in {PolicyCrash, SetupTimeout, StallTimeout} && (raised.Drift? ==> canDrift)
  }

  /** `execute_env_action` reports a verify as terminated. */
  function EnvResult(action: EnvSteps.Action, r: StepResult): StepResult {
    if action.Verify? then r.(terminated := true, truncated := false) else r
  }

  ghost predicate ProperStep(step: ChainStep, action: EnvSteps.Action) {
    && step.action == action
    && (step.timedOut ==> step.result.truncated && !step.result.terminated && step.result.reward == 0.0)
    && (action.Verify? && !step.timedOut ==> step.result.terminated && !step.result.truncated)
  }

  function CallFor(action: EnvSteps.Action, end: CallEnd): ExecutorCall {
    if action.Run? then RunCall(action.run, end) else VerifyCall(end)
  }

  /** Executes one environment action, under its deadline. */
  method Execute(s: Scrubber, action: EnvSteps.Action, canDrift: bool)
    returns (r: Option<ChainStep>, raised: Raised, ghost call: ExecutorCall)
    ensures r.Some? ==> ProperStep(r.value, action)
    ensures r == None ==> ExecutorRaises(raised, canDrift)
    ensures call == CallFor(action, if r == None then Threw else if r.value.timedOut then Cancelled else Returned)
  {
    var reply: StepReply := *;
    raised := Defect;
    match reply
    case StepRaises(e) =>
      r, call := None, CallFor(action, Threw);
      if ExecutorRaises(e, canDrift) { raised := e; }
    case Expired =>
      r := Some(ChainStep(action, ScrubResult(s, TIMED_OUT, CommandOf(action)), true));
      call := CallFor(action, Cancelled);
    case Steps(result) =>
      r := Some(ChainStep(action, ScrubResult(s, EnvResult(action, result), CommandOf(action)), false));
      call := CallFor(action, Returned);
  }

  // ------------------------------------------------------------ one batch

  /** The environment action a request is rendered to; None when the name or the renderer is broken. */
  function Rendered(r: Request): Option<EnvSteps.Action> {
    match r
    case ToolRequest(command) => Some(EnvSteps.Action.Run(command))
    case SubmitRequest => Some(Verify)
    case BrokenRequest => None
  }

  /** The steps added to the chain are the requests in order, none left out: a submit as the verify, a tool's as its
      command. */
  ghost predicate Executes(requests: seq<Request>, added: seq<ChainStep>) {
    |added| <= |requests| && forall k :: 0 <= k < |added| ==>
      match requests[k]
      case ToolRequest(command) => added[k].action == EnvSteps.Action.Run(command)
      case SubmitRequest => added[k].action == Verify
      case BrokenRequest => false
  }

  datatype Batch = Batch(steps: seq<ChainStep>, submit: bool, raised: Option<Raised>)

  /** What became of a batch of requests with `room` steps left. */
  ghost predicate BatchFits(b: Batch, requests: seq<Request>, room: nat) {
    && WellFormedChain(b.steps) && Executes(requests, b.steps) && |b.steps| <= room
    && (b.raised.Some? ==> Running(b.steps) && |b.steps| < |requests|)
    && (b.raised == None && Running(b.steps) ==> |b.steps| == room || |b.steps| == |requests|)
    && (!Running(b.steps) ==> b.submit == b.steps[|b.steps| - 1].action.Verify?)
  }

  /** `prepare_submit`: a verdict served from the record, or none yet. */
  method Prepare(s: Scrubber, canDrift: bool)
    returns (failure: Option<Raised>, served: Option<ChainStep>, ghost call: ExecutorCall)
    ensures failure.Some? ==> ExecutorRaises(failure.value, canDrift)
    ensures served.Some? ==> ProperStep(served.value, Verify) && !served.value.timedOut
    ensures call == PrepareCall(served.Some?, if failure.Some? then Threw else Returned)
  {
    failure, served, call := *, None, PrepareCall(false, Threw);
    if failure.Some? && ExecutorRaises(failure.value, canDrift) { return; }
    var verdict: Option<StepResult> := *;
    failure, call := None, PrepareCall(verdict.Some?, Returned);
    if verdict.Some? {
      served := Some(ChainStep(Verify, ScrubResult(s, EnvResult(Verify, verdict.value), None), false));
    }
  }

  /** The calls of one request, and how the executor stands after it. */
  ghost predicate Asked(before: seq<ExecutorCall>, calls: seq<ExecutorCall>, step: Option<ChainStep>) {
    && before <= calls && !Heard(calls).Misused?
    && Performed(calls) == Performed(before) + (if step.Some? then [step.value.action] else [])
    && (step.Some? && !Ends(step.value.result) ==> Heard(calls).Open?)
  }

  /** The calls that put `added` on the chain; while the episode runs the executor may be asked more. */
  ghost predicate AskedAll(before: seq<ExecutorCall>, calls: seq<ExecutorCall>, added: seq<ChainStep>, open: bool) {
    && !Heard(calls).Misused? && Performed(calls) == Performed(before) + ActionsOf(added)
    && (open ==> Heard(calls).Open?)
  }

  lemma AskedNone(before: seq<ExecutorCall>)
    requires Heard(before).Open?
    ensures AskedAll(before, before, [], true)
  {
  }

  lemma AskedPush(
    before: seq<ExecutorCall>, mid: seq<ExecutorCall>, calls: seq<ExecutorCall>, added: seq<ChainStep>, step: ChainStep)
    requires AskedAll(before, mid, added, true) && Asked(mid, calls, Some(step))
    ensures AskedAll(before, calls, added + [step], !Ends(step.result))
  {
  }

  lemma AskedFailure(
    before: seq<ExecutorCall>, mid: seq<ExecutorCall>, calls: seq<ExecutorCall>, added: seq<ChainStep>)
    requires AskedAll(before, mid, added, true) && Asked(mid, calls, None)
    ensures AskedAll(before, calls, added, false)
  {
  }

  lemma AskedThen(
    before: seq<ExecutorCall>, calls: seq<ExecutorCall>, chain: seq<ChainStep>, added: seq<ChainStep>, open: bool)
    requires AskedAll([], before, chain, true) && AskedAll(before, calls, added, open)
    ensures AskedAll([], calls, chain + added, open)
  {
  }

  /** One request: rendered, prepared and executed. */
  method RunRequest(s: Scrubber, request: Request, canDrift: bool, ghost before: seq<ExecutorCall>)
    returns (step: Option<ChainStep>, raised: Raised, ghost calls: seq<ExecutorCall>)
    requires Heard(before).Open?
    ensures step.Some? ==> Rendered(request) == Some(step.value.action) && ProperStep(step.value, step.value.action)
    ensures step == None ==> if request.BrokenRequest? then raised.PolicyCrash? else ExecutorRaises(raised, canDrift)
    ensures Asked(before, calls, step)
  {
    match request
    case BrokenRequest => return None, PolicyCrash, before;
    case ToolRequest(command) => step, raised, calls := Perform(s, EnvSteps.Action.Run(command), canDrift, before);
    case SubmitRequest => step, raised, calls := Submit(s, canDrift, before);
  }

  /** One action, when the executor is ready for it. */
  method Perform(s: Scrubber, action: EnvSteps.Action, canDrift: bool, ghost before: seq<ExecutorCall>)
    returns (step: Option<ChainStep>, raised: Raised, ghost calls: seq<ExecutorCall>)
    requires if action.Run? then Heard(before).Open? else Heard(before).Prepared?
    ensures step.Some? ==> ProperStep(step.value, action)
    ensures step == None ==> ExecutorRaises(raised, canDrift)
    ensures Asked(before, calls, step)
  {
    ghost var call;
    step, raised, call := Execute(s, action, canDrift);
    CallPush(before, call);
    calls := before + [call];
  }

  method Submit(s: Scrubber, canDrift: bool, ghost before: seq<ExecutorCall>)
    returns (step: Option<ChainStep>, raised: Raised, ghost calls: seq<ExecutorCall>)
    requires Heard(before).Open?
    ensures step.Some? ==> ProperStep(step.value, Verify)
    ensures step == None ==> ExecutorRaises(raised, canDrift)
    ensures Asked(before, calls, step)
  {
    var failure;
    ghost var call;
    failure, step, call := Prepare(s, canDrift);
    CallPush(before, call);
    calls, raised := before + [call], Defect;
    if failure.Some? { return None, failure.value, calls; }
    if step == None { step, raised, calls := Perform(s, Verify, canDrift, calls); }
  }

  ghost predicate BatchSoFar(b: Batch, requests: seq<Request>, room: nat) {
    WellFormedChain(b.steps) && Executes(requests, b.steps) && |b.steps| <= room
  }

  lemma BatchPush(b: Batch, requests: seq<Request>, room: nat, step: ChainStep)
    requires BatchSoFar(b, requests, room) && Running(b.steps) && |b.steps| < room && |b.steps| < |requests|
    requires Rendered(requests[|b.steps|]) == Some(step.action) && ProperStep(step, step.action)
    ensures BatchSoFar(b.(steps := b.steps + [step]), requests, room)
    ensures Running(b.steps + [step]) == !Ends(step.result)
  {
  }

  /** The executing half of a turn: until the batch, the step budget or the episode ends. */
  method RunBatch(s: Scrubber, requests: seq<Request>, room: nat, canDrift: bool, ghost before: seq<ExecutorCall>)
    returns (b: Batch, ghost calls: seq<ExecutorCall>)
    requires Heard(before).Open?
    ensures BatchFits(b, requests, room)
    ensures AskedAll(before, calls, b.steps, b.raised == None && Running(b.steps))
    ensures b.raised.Some? ==>
      if requests[|b.steps|].BrokenRequest? then b.raised.value.PolicyCrash? else ExecutorRaises(b.raised.value, canDrift)
  {
    b, calls := Batch([], false, None), before;
    AskedNone(before);
    while |b.steps| < |requests|
      invariant AskedAll(before, calls, b.steps, true)
      invariant |b.steps| <= |requests| && b.raised == None && Running(b.steps) && BatchSoFar(b, requests, room)
      decreases |requests| - |b.steps|
    {
      if |b.steps| >= room { break; }
      var request := requests[|b.steps|];
      var step, raised;
      ghost var mid := calls;
      step, raised, calls := RunRequest(s, request, canDrift, calls);
      if step == None {
        AskedFailure(before, mid, calls, b.steps);
        return b.(raised := Some(raised)), calls;
      }
      AskedPush(before, mid, calls, b.steps, step.value);
      BatchPush(b, requests, room, step.value);
      b := Batch(b.steps + [step.value], request.SubmitRequest?, None);
      if Ends(step.value.result) { break; }
    }
  }

  /** The executing half, as a continuation of the episode's chain. */
  method ExecuteBatch(s: Scrubber, requests: seq<Request>, room: nat, ghost chain: seq<ChainStep>, canDrift: bool,
                      ghost before: seq<ExecutorCall>)
    returns (b: Batch, ghost calls: seq<ExecutorCall>)
    requires AskedAll([], before, chain, true) && WellFormedChain(chain) && Running(chain)
    ensures BatchFits(b, requests, room) && WellFormedChain(chain + b.steps)
    ensures AskedAll([], calls, chain + b.steps, b.raised == None && Running(b.steps))
    ensures b.raised.Some? ==>
      if requests[|b.steps|].BrokenRequest? then b.raised.value.PolicyCrash? else ExecutorRaises(b.raised.value, canDrift)
  {
    b, calls := RunBatch(s, requests, room, canDrift, before);
    AskedThen(before, calls, chain, b.steps, b.raised == None && Running(b.steps));
    StillWellFormed(chain, b.steps);
  }

  lemma StillWellFormed(chain: seq<ChainStep>, added: seq<ChainStep>)
    requires WellFormedChain(chain) && Running(chain) && WellFormedChain(added)
    ensures WellFormedChain(chain + added) && (added != [] ==> Running(chain + added) == Running(added))
  {
  }

  /** The observing half: telemetry first, then the policy, for each executed step. */
  method ObserveBatch(t: RolloutTelemetry, done: seq<ChainStep>) returns (raised: Option<Raised>)
    requires t.Valid()
    modifies t
    ensures t.Valid() && old(t.stepsTaken) <= t.stepsTaken <= old(t.stepsTaken) + |done|
    ensures DoneRows(t.trace) ==
      DoneRows(old(t.trace)) + BatchRows(done, old(t.stepsTaken) + 1)[..t.stepsTaken - old(t.stepsTaken)]
    ensures raised == None ==> t.stepsTaken == old(t.stepsTaken) + |done|
    ensures raised.Some? ==> raised.value in {PolicyCrash, EnvCrash, Defect}
  {
    var k := 0;
    ghost var from := t.stepsTaken + 1;
    while k < |done|
      invariant k <= |done| && t.Valid() && t.stepsTaken + 1 == from + k
      invariant DoneRows(t.trace) == DoneRows(old(t.trace)) + BatchRows(done, from)[..k]
    {
      DoneRowsPush(t.trace, StepDone(from + k, k, Ends(done[k].result)));
      BatchRowsPush(done, from, k, DoneRows(old(t.trace)));
      t.OnStep(t.stepsTaken + 1, k, Ends(done[k].result));
      raised := PolicyRuns(t);
      if raised.Some? { return; }
      k := k + 1;
    }
    raised := None;
  }

  /** A turn with requests: all of the batch is executed before any of it is observed. */
  method TakeTurn(s: Scrubber, t: RolloutTelemetry, requests: seq<Request>, room: nat, chain: seq<ChainStep>,
                  canDrift: bool, ghost before: seq<ExecutorCall>)
    returns (b: Batch, raised: Option<Raised>, ghost calls: seq<ExecutorCall>)
    requires AskedAll([], before, chain, true)
    requires t.Valid() && OnRecord(t.trace, chain) && WellFormedChain(chain) && Running(chain)
    modifies t
    ensures t.Valid() && BatchFits(b, requests, room) && WellFormedChain(chain + b.steps)
    ensures TellsOf(DoneRows(t.trace), chain + b.steps)
    ensures old(t.stepsTaken) <= t.stepsTaken <= old(t.stepsTaken) + |b.steps|
    ensures raised == None ==>
      && b.raised == None && t.stepsTaken == old(t.stepsTaken) + |b.steps|
      && OnRecord(t.trace, chain + b.steps)
    ensures raised.Some? ==> raised.value.PolicyCrash? || ExecutorRaises(raised.value, canDrift)
    ensures AskedAll([], calls, chain + b.steps, raised == None && Running(b.steps))
  {
    hide WellFormedChain, BatchFits;
    ghost var rows, from := DoneRows(t.trace), t.stepsTaken + 1;
    b, calls := ExecuteBatch(s, requests, room, chain, canDrift, before);
    raised := b.raised;
    BatchTells(rows, chain, b.steps, 0, from);
    if raised.Some? { return; }
    raised := ObserveBatch(t, b.steps);
    BatchTells(rows, chain, b.steps, t.stepsTaken + 1 - from, from);
  }

  /** Every step of the chain has its row. */
  ghost predicate OnRecord(trace: seq<Row>, chain: seq<ChainStep>) {
    TellsOf(DoneRows(trace), chain) && |DoneRows(trace)| == |chain|
  }

  // ------------------------------------------------------------ the episode

  /** What an outcome says about the chain that was executed and the turns without any action. */
  ghost predicate OutcomeFits(o: LoopOutcome, chain: seq<ChainStep>, emptyTurns: nat, maxSteps: int) {
    match o.end
    case Submitted(final) =>
      && !Running(chain) && chain[|chain| - 1].action.Verify? && LastResult(chain) == Some(final)
      && o.steps == Some(|chain| + emptyTurns)
    case Budget(final) =>
      && !Running(chain) && chain[|chain| - 1].action.Run? && LastResult(chain) == Some(final)
      && o.steps == Some(|chain| + emptyTurns)
    case StepCap(last) =>
      && Running(chain) && last == LastResult(chain)
      && o.steps == Some(|chain| + emptyTurns) && |chain| + emptyTurns >= maxSteps
    case GaveUp(last) =>
      Running(chain) && last == LastResult(chain) && o.steps == Some(|chain| + emptyTurns)
    case Failed(raised) => raised !in {Drift, Defect} && o.steps == None
  }

  datatype TurnEnd = GoesOn | Left(outcome: Option<LoopOutcome>, escaped: Raised)

  /** A turn with requests, and whether the episode goes on. */
  method Turn(s: Scrubber, t: RolloutTelemetry, requests: seq<Request>, stepIndex: nat, maxSteps: int,
              chain: seq<ChainStep>, ghost emptyTurns: nat, canDrift: bool, ghost before: seq<ExecutorCall>)
    returns (b: Batch, raised: Option<Raised>, done: seq<ChainStep>, end: TurnEnd, ghost calls: seq<ExecutorCall>)
    requires requests != [] && AskedAll([], before, chain, true)
    requires t.Valid() && OnRecord(t.trace, chain) && WellFormedChain(chain) && Running(chain)
    requires stepIndex == t.stepsTaken == |chain| + emptyTurns < maxSteps
    modifies t
    ensures t.Valid() && WellFormedChain(chain + done) && TellsOf(DoneRows(t.trace), chain + done)
    ensures stepIndex <= t.stepsTaken <= stepIndex + |done| <= maxSteps
    ensures end.GoesOn? ==>
      && done != [] && Running(chain + done) && OnRecord(t.trace, chain + done) && t.stepsTaken == stepIndex + |done|
    ensures end.Left? && end.outcome.Some? ==>
      && OutcomeFits(end.outcome.value, chain + done, emptyTurns, maxSteps)
      && (end.outcome.value.steps.Some? ==>
            end.outcome.value.steps == Some(t.stepsTaken) && |DoneRows(t.trace)| == |chain + done|)
    ensures end.Left? && end.outcome == None ==> Escapes(end.escaped) && (end.escaped.Drift? ==> canDrift)
    ensures AskedAll([], calls, chain + done, end.GoesOn?)
    ensures done == b.steps && end == EndOfTurn(b, raised, stepIndex + |done|)
  {
    hide TellsOf, OnlyLastEnds, VerifiesEnd, TimeoutsEnd;
    b, raised, calls := TakeTurn(s, t, requests, maxSteps - stepIndex, chain, canDrift, before);
    done, end := b.steps, GoesOn;
    StillWellFormed(chain, done);
    if raised.Some? {
      var outcome, escaped := Leave(raised.value);
      end := Left(outcome, escaped);
    } else if !Running(chain + done) {
      EndFits(b, requests, maxSteps - stepIndex, chain, emptyTurns, maxSteps);
      end := Left(Some(Ending(b, stepIndex + |done|)), Defect);
    }
  }

  /** What a turn comes to: its batch, and what was raised while it was executed (`b.raised`) or, after that,
      while it was observed. */
  function EndOfTurn(b: Batch, raised: Option<Raised>, steps: nat): TurnEnd {
    if raised.Some? then Left(if Escapes(raised.value) then None else Some(LoopOutcome(Failed(raised.value), None)), raised.value)
    else if b.steps != [] && Ends(b.steps[|b.steps| - 1].result) then Left(Some(Ending(b, steps)), Defect)
    else GoesOn
  }

  /** The outcome of an episode that its batch has ended. */
  function Ending(b: Batch, steps: nat): LoopOutcome
    requires b.steps != []
  {
    var final := b.steps[|b.steps| - 1].result;
    LoopOutcome(if b.submit then Submitted(final) else Budget(final), Some(steps))
  }

  lemma EndFits(
    b: Batch, requests: seq<Request>, room: nat, chain: seq<ChainStep>, emptyTurns: nat, maxSteps: int)
    requires BatchFits(b, requests, room) && Running(chain) && !Running(chain + b.steps)
    ensures b.steps != []
    ensures OutcomeFits(Ending(b, |chain + b.steps| + emptyTurns), chain + b.steps, emptyTurns, maxSteps)
  {
    assert b.steps == [] ==> chain + b.steps == chain;
  }

  /** A turn without any action. */
  method IdleTurn(t: RolloutTelemetry, stepIndex: nat, ghost chain: seq<ChainStep>)
    requires t.Valid() && OnRecord(t.trace, chain) && t.stepsTaken == stepIndex
    modifies t
    ensures t.Valid() && OnRecord(t.trace, chain) && t.stepsTaken == stepIndex + 1
  {
    DoneRowsPush(t.trace, EmptyTurn(stepIndex + 1));
    t.OnEmptyTurn(stepIndex + 1);
  }

  /** The set-up: the env is reset and the executor provisioned, either of which may raise, and then the policy
      is reset. */
  method SetUp(t: RolloutTelemetry, canDrift: bool) returns (raised: Option<Raised>, ghost calls: seq<ExecutorCall>)
    requires t.Valid()
    modifies t
    ensures t.Valid() && t.stepsTaken == old(t.stepsTaken) && DoneRows(t.trace) == DoneRows(old(t.trace))
    ensures raised.Some? ==>
      raised.value in {PolicyCrash, EnvCrash, Defect, SetupTimeout} || ExecutorRaises(raised.value, canDrift)
    ensures AskedAll([], calls, [], raised == None)
  {
    raised := *;
    if raised.Some? && !raised.value.SetupTimeout? && !ExecutorRaises(raised.value, canDrift) { raised := None; }
    calls := Provisioned(raised);
    if raised == None { raised := PolicyRuns(t); }
  }

  ghost method Provisioned(raised: Option<Raised>) returns (calls: seq<ExecutorCall>)
    ensures AskedAll([], calls, [], raised == None)
  {
    calls := [];
    var reached: bool := *;
    if raised == None || reached {
      var call := ProvisionCall(if raised == None then Returned else Threw);
      CallPush([], call);
      calls := [] + [call];
    }
  }

  /** `run_task_loop`. None: the episode was left by a drift or by a framework defect. */
  method RunTaskLoop(s: Scrubber, t: RolloutTelemetry, maxSteps: int, canDrift: bool)
    returns (outcome: Option<LoopOutcome>, escaped: Raised, chain: seq<ChainStep>, ghost emptyTurns: nat,
             ghost calls: seq<ExecutorCall>)
    requires t.Valid() && t.stepsTaken == 0 && t.trace == []
    modifies t
    ensures t.Valid() && WellFormedChain(chain) && TellsOf(DoneRows(t.trace), chain)
    ensures t.stepsTaken <= |chain| + emptyTurns <= if maxSteps > 0 then maxSteps else 0
    ensures outcome.Some? ==> OutcomeFits(outcome.value, chain, emptyTurns, maxSteps)
    ensures outcome.Some? && outcome.value.steps.Some? ==>
      outcome.value.steps == Some(t.stepsTaken) && |DoneRows(t.trace)| == |chain|
    ensures outcome == None ==> escaped in {Drift, Defect} && (escaped.Drift? ==> canDrift)
    ensures AskedAll([], calls, chain, false)
  {
    chain, emptyTurns, escaped := [], 0, Defect;
    var raised;
    raised, calls := SetUp(t, canDrift);
    if raised.Some? {
      outcome, escaped := Leave(raised.value);
      return;
    }
    var stepIndex := 0;
    while stepIndex < maxSteps
      invariant t.Valid() && WellFormedChain(chain) && Running(chain)
      invariant OnRecord(t.trace, chain)
      invariant AskedAll([], calls, chain, true)
      invariant stepIndex == t.stepsTaken == |chain| + emptyTurns <= if maxSteps > 0 then maxSteps else 0
      decreases maxSteps - stepIndex
    {
      var reply := Act(t);
      match reply
      case ActRaises(e) =>
        outcome, escaped := Leave(e);
        return;
      case RepeatedCutoff =>
        outcome := Some(LoopOutcome(GaveUp(LastResult(chain)), Some(stepIndex)));
        return;
      case Acts(requests) =>
        if requests == [] {
          IdleTurn(t, stepIndex, chain);
          stepIndex, emptyTurns := stepIndex + 1, emptyTurns + 1;
        } else {
          var b, failure, done, end;
          b, failure, done, end, calls := Turn(s, t, requests, stepIndex, maxSteps, chain, emptyTurns, canDrift, calls);
          chain, stepIndex := chain + done, stepIndex + |done|;
          if end.Left? {
            outcome, escaped := end.outcome, end.escaped;
            return;
          }
        }
    }
    outcome := Some(LoopOutcome(StepCap(LastResult(chain)), Some(stepIndex)));
  }

  /** The ladder of except clauses. */
  method Leave(raised: Raised) returns (outcome: Option<LoopOutcome>, escaped: Raised)
    ensures outcome == if Escapes(raised) then None else Some(LoopOutcome(Failed(raised), None))
    ensures escaped == raised
  {
    outcome, escaped := if Escapes(raised) then None else Some(LoopOutcome(Failed(raised), None)), raised;
  }

  // ------------------------------------------------------------ classification

  datatype Classified = Classified(mode: FailureMode, origin: Option<Origin>, reward: Option<real>)

  /** `_classify_loop_result`; None stands for a submit whose result carries no verdict. */
  function Classify(o: LoopOutcome): Option<Classified> {
    match o.end
    case Submitted(final) =>
      if final.truncated then Some(Classified(VerifyTimeout, None, Some(final.reward)))
      else if final.verdict == None then None
      else if final.verdict.value.Incomplete? then Some(Classified(Crash, Some(EnvOrigin), None))
      else Some(Classified(if final.verdict.value.passed then Solved else VerifiedRejected, None, Some(final.reward)))
    case Budget(final) => Some(Classified(HitTimeout, None, Some(final.reward)))
    case GaveUp(_) => Some(Classified(NoValidAction, None, None))
    case StepCap(last) =>
      if last == None then Some(Classified(NoValidAction, None, None))
      else Some(Classified(HitStepCap, None, Some(last.value.reward)))
    case Failed(raised) =>
      match raised {
        case SetupTimeout | EnvCrash => Some(Classified(Crash, Some(EnvOrigin), None))
        case TaskTimeout | StallTimeout => Some(Classified(HitTimeout, None, None))
        case Unscorable => Some(Classified(UnscorableInfra, None, None))
        case PolicyCrash => Some(Classified(Crash, Some(PolicyOrigin), None))
        case _ => None
      }
  }

  datatype RolloutResult = RolloutResult(
    mode: FailureMode, origin: Option<Origin>, errored: bool, steps: Option<nat>, reward: Option<real>)

  /** The rest of `RolloutRunner.run`: a failed cleanup turns any outcome into an environment crash. */
  function Finish(o: LoopOutcome, closeFailed: bool): Option<RolloutResult> {
    var c := Classify(o);
    if c == None then None else
    Some(RolloutResult(
      if closeFailed then Crash else c.value.mode, if closeFailed then Some(EnvOrigin) else c.value.origin,
      closeFailed || c.value.mode.Crash? || c.value.mode.UnscorableInfra? || o.end.GaveUp?, o.steps, c.value.reward))
  }

  /** A rollout counts as solved exactly when its resources closed cleanly, the loop returned a submit, and the
      last thing it executed was a verify, in time, whose completed verdict passed; and the record's own
      invariants hold of every outcome the loop can return. */
  lemma SolvedIff(o: LoopOutcome, chain: seq<ChainStep>, emptyTurns: nat, maxSteps: int, closeFailed: bool)
    requires OutcomeFits(o, chain, emptyTurns, maxSteps) && WellFormedChain(chain)
    requires Finish(o, closeFailed).Some?
    ensures var r := Finish(o, closeFailed).value;
      && (r.mode.Solved? <==> !closeFailed && o.end.Submitted? && VerifiedPassing(chain))
      && (r.mode.Crash? <==> r.origin.Some?) && (r.mode.Solved? ==> !r.errored)
      && (r.mode.NoValidAction? && o.end.StepCap? ==> chain == [] && emptyTurns >= maxSteps)
  {
  }

  /** The last step of the chain is a verify that came back with this verdict. */
  ghost predicate VerdictIs(chain: seq<ChainStep>, verdict: Option<Verdict>) {
    && chain != [] && chain[|chain| - 1].action.Verify?
    && !chain[|chain| - 1].timedOut && chain[|chain| - 1].result.verdict == verdict
  }

  /** How each rollout is recorded: by its verdict if it was submitted and its resources closed, and otherwise by what
      kept it from one. There is no record only if the verifier came back without a verdict. */
  lemma RecordedIff(o: LoopOutcome, chain: seq<ChainStep>, emptyTurns: nat, maxSteps: int, closeFailed: bool)
    requires OutcomeFits(o, chain, emptyTurns, maxSteps) && WellFormedChain(chain)
    ensures Finish(o, closeFailed) == None <==> o.end.Submitted? && VerdictIs(chain, None)
    ensures var r := Finish(o, closeFailed); r.Some? && !closeFailed ==> var mode := r.value.mode;
      && (mode.Solved? <==> o.end.Submitted? && VerdictIs(chain, Some(Completed(true))))
      && (mode.VerifiedRejected? <==> o.end.Submitted? && VerdictIs(chain, Some(Completed(false))))
      && (mode.VerifyTimeout? <==> o.end.Submitted? && chain[|chain| - 1].timedOut)
      && (mode.HitTimeout? <==> o.end.Budget? || o.end in {Failed(TaskTimeout), Failed(StallTimeout)})
      && (mode.HitStepCap? <==> o.end.StepCap? && chain != [])
      && (mode.NoValidAction? <==> o.end.GaveUp? || (o.end.StepCap? && chain == []))
      && (mode.UnscorableInfra? <==> o.end == Failed(Unscorable))
      && (r.value.origin == Some(PolicyOrigin) <==> o.end == Failed(PolicyCrash))
      && (r.value.reward.Some? ==> chain != [] && r.value.reward.value == chain[|chain| - 1].result.reward)
      && (r.value.reward.Some? <==> mode in {Solved, VerifiedRejected, VerifyTimeout, HitStepCap} || o.end.Budget?)
      && (mode.VerifyTimeout? ==> r.value.reward == Some(0.0))
    ensures var r := Finish(o, closeFailed); r.Some? ==>
      && (closeFailed ==> r.value.mode.Crash? && r.value.origin == Some(EnvOrigin) && r.value.errored)
      && r.value.steps == o.steps
  {
    assert o.end.Submitted? && chain[|chain| - 1].timedOut ==> chain[|chain| - 1].result.truncated;
  }

  /** A passing verify alone does not make a rollout solved. In a turn that executes it without trouble, the
      rollout is solved if it is then observed without trouble too, and a crash of the candidate if the policy
      raises while it observes the verdict. */
  lemma ObservingCrashLosesTheSolve(output: RawOutput, requests: seq<Request>, room: nat)
    returns (b: Batch, solved: TurnEnd, lost: TurnEnd)
    requires requests == [SubmitRequest] && room > 0
    ensures BatchFits(b, requests, room) && b.raised == None && VerifiedPassing(b.steps)
    ensures solved == EndOfTurn(b, None, 1) && solved.Left? && solved.outcome.Some?
    ensures Finish(solved.outcome.value, false).Some? && Finish(solved.outcome.value, false).value.mode.Solved?
    ensures lost == EndOfTurn(b, Some(PolicyCrash), 1) && lost.Left? && lost.outcome.Some?
    ensures Finish(lost.outcome.value, false) == Some(RolloutResult(Crash, Some(PolicyOrigin), true, None, None))
  {
    var verdict := StepResult(output, 1.0, true, false, map[], map[], Some(Completed(true)));
    b := Batch([ChainStep(Verify, verdict, false)], true, None);
    solved, lost := EndOfTurn(b, None, 1), EndOfTurn(b, Some(PolicyCrash), 1);
  }

  ghost predicate VerifiedPassing(chain: seq<ChainStep>) {
    && chain != []
    && var last := chain[|chain| - 1];
       last.action.Verify? && !last.timedOut && !last.result.truncated && last.result.verdict == Some(Completed(true))
  }
}
