/** One agent turn (src/policy/core.py:213-417, 509-566, 724-784): completing a fitted request, parsing and
    repairing, and what a turn leaves behind. The backend is any function of the exchanges so far. */
module AgentTurn {
  import opened EnvSteps
  import opened ContextWindow

  datatype Action = Action(name: string, args: string)

  datatype Response =
    | Completed(calls: seq<ToolCall>, cutOff: bool, promptTokens: Option<nat>)
    | Overflow(inputTokens: Option<nat>)
    | Rejected(error: string)
    | Failure

  datatype Request = Request(messages: seq<Message>, thinkingOff: bool)

  datatype Exchange = Exchange(request: Request, response: Response)

  datatype Parsed = Actions(actions: seq<Action>) | Missing | Invalid(error: string)

  datatype Step = Executed(action: Action, output: RawOutput) | FailedStep(attempts: int, error: string)

  datatype Turn = Acted(actions: seq<Action>) | NoValidAction | RepeatedCutoff | ContextOverflow | BackendFailed

  /** The completion source, as a function of everything exchanged before and the request at hand. */
  class Backend {
    var log: seq<Exchange>
    const reply: (seq<Exchange>, Request) -> Response

    constructor (reply: (seq<Exchange>, Request) -> Response)
      ensures log == [] && this.reply == reply
    {
      log, this.reply := [], reply;
    }

    method Complete(request: Request) returns (r: Response)
      modifies this`log
      ensures r == reply(old(log), request) && log == old(log) + [Exchange(request, r)]
    {
      r := reply(log, request);
      log := log + [Exchange(request, r)];
    }
  }

  // ------------------------------------------------------------ parsing

  /** `ActionParser.actions`: nothing runs unless every call was offered and every argument object is valid. */
  function Parse(calls: seq<ToolCall>, offered: set<string>, validate: ToolCall -> Option<Action>,
                 complaint: seq<ToolCall> -> string): Parsed
  {
    if calls == [] then Missing
    else if exists c :: c in calls && (c.name !in offered || validate(c) == None) then Invalid(complaint(calls))
    else Actions(seq(|calls|, i requires 0 <= i < |calls| => validate(calls[i]).value))
  }

  // ------------------------------------------------------------ the retention floor

  /** The newest executed step, or the last step of any kind; -1 when there is none. */
  function Floor(trajectory: seq<Step>): int {
    if trajectory == [] then -1
    else if trajectory[|trajectory| - 1].Executed? then |trajectory| - 1
    else
      var f := NewestExecuted(trajectory[..|trajectory| - 1]);
      if f >= 0 then f else |trajectory| - 1
  }

  function NewestExecuted(trajectory: seq<Step>): int {
    if trajectory == [] then -1
    else if trajectory[|trajectory| - 1].Executed? then |trajectory| - 1
    else NewestExecuted(trajectory[..|trajectory| - 1])
  }

  /** Whatever the budget, a fit keeps the newest executed step and everything after it, and never sends a
      request without any step of a non-empty trajectory. */
  lemma NewestStepIsKept(w: Window, cal: real, head: seq<Message>, groups: seq<seq<Message>>, trajectory: seq<Step>,
                         turn: seq<Message>)
    requires |groups| == |trajectory|
    ensures -1 <= Floor(trajectory) < |groups| || trajectory == []
    ensures var dropped := w.DroppedAt(cal, head, groups, Floor(trajectory), turn);
      && (trajectory != [] ==> dropped < |groups|)
      && (forall i :: 0 <= i < |trajectory| && trajectory[i].Executed? ==>
            exists j :: dropped <= j < |trajectory| && i <= j && trajectory[j].Executed?)
  {
    NewestExecutedIsLast(trajectory);
    FitStartIsLongest(w.counter, groups, Floor(trajectory), Room(w.Cap(), cal, w.HeadTokens(head, turn)), 0);
    var f, dropped := NewestExecuted(trajectory), w.DroppedAt(cal, head, groups, Floor(trajectory), turn);
    forall i | 0 <= i < |trajectory| && trajectory[i].Executed?
      ensures exists j :: dropped <= j < |trajectory| && i <= j && trajectory[j].Executed?
    {
      assert dropped <= f && i <= f && trajectory[f].Executed?;
    }
  }

  lemma {:induction false} NewestExecutedIsLast(trajectory: seq<Step>)
    ensures var f := NewestExecuted(trajectory);
      && -1 <= f < |trajectory| && (f >= 0 ==> trajectory[f].Executed?)
      && (forall i :: f < i < |trajectory| ==> !trajectory[i].Executed?)
      && Floor(trajectory) == if f >= 0 then f else |trajectory| - 1
  {
    if trajectory != [] { NewestExecutedIsLast(trajectory[..|trajectory| - 1]); }
  }

  // ------------------------------------------------------------ counting exchanges

  /** Requests the model answered: everything but an overflow. */
  function Answered(log: seq<Exchange>): nat {
    if log == [] then 0
    else Answered(log[..|log| - 1]) + if log[|log| - 1].response.Overflow? then 0 else 1
  }

  /** Answers that ran into the length limit without making a call. */
  function Cutoffs(log: seq<Exchange>): nat {
    if log == [] then 0
    else Cutoffs(log[..|log| - 1]) + if IsCutoff(log[|log| - 1].response) then 1 else 0
  }

  predicate IsCutoff(r: Response) {
    r.Completed? && r.cutOff && r.calls == []
  }

  lemma {:induction false} CountsExtend(log: seq<Exchange>, more: seq<Exchange>)
    requires more != [] && forall k :: 0 <= k < |more| - 1 ==> more[k].response.Overflow?
    ensures Answered(log + more) == Answered(log) + if more[|more| - 1].response.Overflow? then 0 else 1
    ensures Cutoffs(log + more) == Cutoffs(log) + if IsCutoff(more[|more| - 1].response) then 1 else 0
  {
    var all := log + more;
    assert all[..|all| - 1] == log + more[..|more| - 1];
    if |more| == 1 {
      assert log + more[..0] == log;
    } else {
      CountsExtend(log, more[..|more| - 1]);
    }
  }

  /** Every request with thinking off is followed only by such requests, and `disabled` remembers the last. */
  ghost predicate ThinkingStaysOff(log: seq<Exchange>, disabled: bool) {
    log != [] ==>
      var last := log[|log| - 1].request.thinkingOff;
      (last ==> disabled) && ThinkingStaysOff(log[..|log| - 1], last)
  }

  lemma {:induction false} OffForGood(log: seq<Exchange>, disabled: bool, i: nat, j: nat)
    requires ThinkingStaysOff(log, disabled) && i <= j < |log| && log[i].request.thinkingOff
    ensures log[j].request.thinkingOff && disabled
  {
    var last := |log| - 1;
    if i < last {
      OffForGood(log[..last], log[last].request.thinkingOff, i, if j < last then j else last - 1);
    }
  }

  lemma {:induction false} ThinkingExtends(log: seq<Exchange>, more: seq<Exchange>, disabled: bool)
    requires ThinkingStaysOff(log, disabled)
    requires forall k :: 0 <= k < |more| ==> more[k].request.thinkingOff == disabled
    ensures ThinkingStaysOff(log + more, disabled)
  {
    if more == [] {
      assert log + more == log;
    } else {
      assert (log + more)[..|log + more| - 1] == log + more[..|more| - 1];
      ThinkingExtends(log, more[..|more| - 1], disabled);
    }
  }

  lemma StaysOffWhenDisabled(log: seq<Exchange>, disabled: bool)
    requires ThinkingStaysOff(log, disabled)
    ensures ThinkingStaysOff(log, true)
  {
  }

  lemma AttemptExtends(before: seq<Exchange>, run: seq<Exchange>, from: nat)
    requires from <= |before| && run != []
    requires forall k :: 0 <= k < |run| - 1 ==> run[k].response.Overflow?
    ensures Answered((before + run)[from..]) == Answered(before[from..]) + if run[|run| - 1].response.Overflow? then 0 else 1
    ensures Cutoffs((before + run)[from..]) == Cutoffs(before[from..]) + if IsCutoff(run[|run| - 1].response) then 1 else 0
    ensures (before + run)[from..] == before[from..] + run
  {
    assert (before + run)[from..] == before[from..] + run;
    CountsExtend(before[from..], run);
  }

  /** `attempt` fitted completions have been made since `start`, all answered. */
  ghost predicate SoFar(start: seq<Exchange>, log: seq<Exchange>, attempt: nat) {
    && start <= log && |log| - |start| <= attempt * (RETRIM_BUDGET + 1)
    && Answered(log[|start|..]) == attempt && (attempt > 0 ==> |log| > |start|)
  }

  /** As `SoFar`, with one more completion that overflowed for good. */
  ghost predicate Ended(start: seq<Exchange>, log: seq<Exchange>, attempt: nat) {
    && start < log && |log| - |start| <= (attempt + 1) * (RETRIM_BUDGET + 1) && Answered(log[|start|..]) == attempt
  }

  lemma SoFarExtends(start: seq<Exchange>, log: seq<Exchange>, run: seq<Exchange>, attempt: nat)
    requires SoFar(start, log, attempt) && 1 <= |run| <= RETRIM_BUDGET + 1
    requires forall k :: 0 <= k < |run| - 1 ==> run[k].response.Overflow?
    ensures if run[|run| - 1].response.Overflow? then Ended(start, log + run, attempt)
            else SoFar(start, log + run, attempt + 1)
  {
    AttemptExtends(log, run, |start|);
  }

  /** What one more fitted completion adds to a rollout's exchanges. */
  lemma AttemptKeeps(start: seq<Exchange>, log: seq<Exchange>, run: seq<Exchange>, attempt: nat, since: nat, disabled: bool)
    requires SoFar(start, log, attempt) && since <= |log| && ThinkingStaysOff(log[since..], disabled)
    requires 1 <= |run| <= RETRIM_BUDGET + 1
    requires forall k :: 0 <= k < |run| - 1 ==> run[k].response.Overflow?
    requires forall k :: 0 <= k < |run| ==> run[k].request.thinkingOff == disabled
    ensures Cutoffs((log + run)[since..]) == Cutoffs(log[since..]) + if IsCutoff(run[|run| - 1].response) then 1 else 0
    ensures ThinkingStaysOff((log + run)[since..], disabled)
    ensures if run[|run| - 1].response.Overflow? then Ended(start, log + run, attempt)
            else SoFar(start, log + run, attempt + 1)
  {
    AttemptExtends(log, run, since);
    ThinkingExtends(log[since..], run, disabled);
    SoFarExtends(start, log, run, attempt);
  }

  lemma {:induction false} EstimatePositive(c: Counter, tools: string, ms: seq<Message>)
    requires ms != []
    ensures EstimateRequest(c, tools, ms) > 0
  {
    assert EstimateMessage(c, ms[0]) > 0;
  }

  // ------------------------------------------------------------ the agent

  /** Everything fixed for one rollout. */
  datatype Setup = Setup(
    offered: set<string>, validate: ToolCall -> Option<Action>, complaint: seq<ToolCall> -> string,
    head: seq<Message>, render: (Step, nat) -> seq<Message>,
    repair: Response -> seq<Message>, thinkingToggleable: bool, maxOutputRetries: int)

  /** What one fitted completion works from. */
  datatype Plan = Plan(head: seq<Message>, groups: seq<seq<Message>>, floor: int, turn: seq<Message>, thinkingOff: bool)

  function RequestFor(w: Window, cal: real, plan: Plan): Request
    requires plan.floor <= |plan.groups|
  {
    Request(w.RequestAt(cal, plan.head, plan.groups, plan.floor, plan.turn), plan.thinkingOff)
  }

  /** What is sent: the head, a note for what is left out, the longest suffix of the steps that fits, in order, and the
      turn's own messages. */
  lemma RequestShape(w: Window, cal: real, plan: Plan) returns (dropped: nat)
    requires plan.floor <= |plan.groups|
    ensures dropped <= |plan.groups| && w.KeepsLongest(cal, plan.head, plan.groups, plan.floor, plan.turn, dropped)
    ensures RequestFor(w, cal, plan) == Request(
      plan.head + (if dropped == 0 then [] else [w.note(dropped)]) + Flatten(plan.groups[dropped..]) + plan.turn,
      plan.thinkingOff)
  {
    dropped := w.DroppedAt(cal, plan.head, plan.groups, plan.floor, plan.turn);
    w.LongestIsKept(cal, plan.head, plan.groups, plan.floor, plan.turn);
  }

  /** The calibration that follows an exchange: tightened after an overflow. */
  function TightenedAfter(w: Window, cal: real, e: Exchange): real {
    if e.response.Overflow? && w.Estimate(e.request.messages) > 0
    then w.Tightened(cal, e.response.inputTokens, e.request.messages) else cal
  }

  /** After exchange `e` under `before`, the next request goes out under `after`. */
  ghost predicate Follows(w: Window, e: Exchange, before: real, after: real) {
    e.response.Overflow? && before < after == TightenedAfter(w, before, e)
  }

  /** Request `k` was fitted at calibration `k`. */
  ghost predicate SentAt(w: Window, plan: Plan, run: seq<Exchange>, cals: seq<real>, k: nat)
    requires plan.floor <= |plan.groups| && k < |run| == |cals|
  {
    run[k].request == RequestFor(w, cals[k], plan)
  }

  ghost predicate FollowsAt(w: Window, run: seq<Exchange>, cals: seq<real>, k: nat)
    requires k + 1 < |run| == |cals|
  {
    Follows(w, run[k], cals[k], cals[k + 1])
  }

  /** Exchanges of one fitted completion, each with the calibration its request was fitted at. */
  ghost predicate IsRetrimRun(w: Window, plan: Plan, run: seq<Exchange>, cals: seq<real>)
    requires plan.floor <= |plan.groups|
  {
    && |run| == |cals|
    && (forall k :: 0 <= k < |run| ==> SentAt(w, plan, run, cals, k))
    && forall k :: 0 <= k < |run| - 1 ==> FollowsAt(w, run, cals, k)
  }

  lemma RetrimRunExtends(w: Window, plan: Plan, run: seq<Exchange>, cals: seq<real>, e: Exchange, cal: real)
    requires InFlight(w, plan, run, cals, cal) && e.request == RequestFor(w, cal, plan)
    ensures IsRetrimRun(w, plan, run + [e], cals + [cal])
  {
    var run', cals' := run + [e], cals + [cal];
    forall k | 0 <= k < |run'| ensures SentAt(w, plan, run', cals', k) {
      if k < |run| { assert SentAt(w, plan, run, cals, k); }
    }
    forall k | 0 <= k < |run'| - 1 ensures FollowsAt(w, run', cals', k) {
      if k < |run| - 1 { assert FollowsAt(w, run, cals, k); }
    }
  }

  lemma AllButLastOverflow(w: Window, plan: Plan, run: seq<Exchange>, cals: seq<real>)
    requires plan.floor <= |plan.groups| && IsRetrimRun(w, plan, run, cals)
    ensures forall k :: 0 <= k < |run| - 1 ==> run[k].response.Overflow?
    ensures forall k :: 0 <= k < |run| ==> run[k].request.thinkingOff == plan.thinkingOff
  {
    forall k | 0 <= k < |run| - 1 ensures run[k].response.Overflow? {
      assert FollowsAt(w, run, cals, k);
    }
    forall k | 0 <= k < |run| ensures run[k].request.thinkingOff == plan.thinkingOff {
      assert SentAt(w, plan, run, cals, k);
    }
  }

  /** A server that charges exactly `d` tokens per estimated token, overflows just when that does not leave
      room for the completion, and reports what it charged. */
  ghost predicate ChargesExactly(w: Window, d: real, e: Exchange) {
    var n := w.Estimate(e.request.messages);
    && (e.response.Overflow? <==> !Accepts(d, n, w.Cap()))
    && (e.response.Overflow? ==>
          e.response.inputTokens.Some? && e.response.inputTokens.value as real == d * n as real)
  }

  lemma FirstOverflowReveals(w: Window, d: real, e: Exchange, before: real, after: real)
    requires CALIBRATION_MARGIN * d <= MAX_CALIBRATION && w.Estimate(e.request.messages) > 0
    requires ChargesExactly(w, d, e) && Follows(w, e, before, after)
    ensures after == CALIBRATION_MARGIN * d
  {
    OverflowRevealsDensity(w, d, e.response.inputTokens.value, before, e.request.messages);
  }

  lemma TightIsAccepted(w: Window, plan: Plan, d: real, cal: real, e: Exchange)
    requires plan.floor <= |plan.groups| && d >= 0.0 && cal >= 1.0 && cal >= CALIBRATION_MARGIN * d
    requires e.request == RequestFor(w, cal, plan) && ChargesExactly(w, d, e)
    ensures !e.response.Overflow? || AtTheEdge(w, plan, cal)
  {
    OneOverflowIsEnough(w, d, cal, plan.head, plan.groups, plan.floor, plan.turn);
  }

  /** Trimming stopped at the floor, or the omitted-steps note outweighs the margin. */
  ghost predicate AtTheEdge(w: Window, plan: Plan, cal: real)
    requires plan.floor <= |plan.groups| && cal > 0.0
  {
    || AtFloor(w, cal, plan.head, plan.groups, plan.floor, plan.turn)
    || NoteTooBig(w, cal, plan.head, plan.groups, plan.floor, plan.turn)
  }

  /** Against such a server a fitted completion makes at most two requests, the second at the density it has
      learnt with its margin; and it passes an overflow on only at the edge. */
  lemma OverflowsAtMostOnce(w: Window, plan: Plan, run: seq<Exchange>, cals: seq<real>, after: real, d: real)
    requires plan.floor <= |plan.groups| && |run| == |cals| >= 1
    requires ExactlyCharged(w, plan, run, cals, d) && IsComplete(w, run, cals, after)
    ensures |run| <= 2 && (|run| == 2 ==> cals[1] == CALIBRATION_MARGIN * d)
    ensures cals[|run| - 1] >= 1.0
    ensures run[|run| - 1].response.Overflow? ==> AtTheEdge(w, plan, cals[|run| - 1])
  {
    assert SentAt(w, plan, run, cals, 0);
    RequestIsEstimable(w, plan, cals[0]);
    if |run| == 1 {
      if run[0].response.Overflow? {
        KeptIsTight(w, d, run[0], cals[0], after);
        TightIsAccepted(w, plan, d, cals[0], run[0]);
      }
    } else {
      assert SentAt(w, plan, run, cals, 1) && FollowsAt(w, run, cals, 0);
      FirstOverflowReveals(w, d, run[0], cals[0], cals[1]);
      TightIsAccepted(w, plan, d, cals[1], run[1]);
      if |run| > 2 {
        RequestIsEstimable(w, plan, cals[1]);
        assert FollowsAt(w, run, cals, 1);
        FirstOverflowReveals(w, d, run[1], cals[1], cals[2]);
      }
    }
  }

  /** An overflow that tightens nothing came at a calibration that was tight enough already. */
  lemma KeptIsTight(w: Window, d: real, e: Exchange, before: real, after: real)
    requires CALIBRATION_MARGIN * d <= MAX_CALIBRATION && w.Estimate(e.request.messages) > 0
    requires ChargesExactly(w, d, e) && e.response.Overflow? && EndsWith(w, e, before, after)
    ensures before >= CALIBRATION_MARGIN * d
  {
    OverflowRevealsDensity(w, d, e.response.inputTokens.value, before, e.request.messages);
  }

  /** A fitted completion against a server of density `d`. */
  ghost predicate ExactlyCharged(w: Window, plan: Plan, run: seq<Exchange>, cals: seq<real>, d: real)
    requires plan.floor <= |plan.groups| && |run| == |cals| >= 1
  {
    && plan.head != [] && d >= 0.0 && CALIBRATION_MARGIN * d <= MAX_CALIBRATION && cals[0] >= 1.0
    && IsRetrimRun(w, plan, run, cals) && forall k :: 0 <= k < |run| ==> ChargesExactly(w, d, run[k])
  }

  /** The completion ended there: with the retrims used up, or with what cannot be retrimmed. */
  ghost predicate IsComplete(w: Window, run: seq<Exchange>, cals: seq<real>, after: real)
    requires |run| == |cals| >= 1
  {
    |run| == RETRIM_BUDGET + 1 || EndsWith(w, run[|run| - 1], cals[|run| - 1], after)
  }

  function Rendered(setup: Setup, trajectory: seq<Step>): (g: seq<seq<Message>>)
    ensures |g| == |trajectory|
  {
    seq(|trajectory|, i requires 0 <= i < |trajectory| => setup.render(trajectory[i], i + 1))
  }

  /** What a turn works from, before its own messages. */
  function BasePlan(setup: Setup, trajectory: seq<Step>, thinkingOff: bool): Plan {
    Plan(setup.head, Rendered(setup, trajectory), Floor(trajectory), [], thinkingOff)
  }

  /** One attempt of a turn: its plan, its exchanges and the calibrations they were fitted at. */
  datatype Pass = Pass(plan: Plan, run: seq<Exchange>, cals: seq<real>)

  /** The turn messages that follow: none at first, then the repair of the last answer. */
  function NextTurn(setup: Setup, passes: seq<Pass>): seq<Message> {
    if passes == [] || passes[|passes| - 1].run == [] then []
    else
      var run := passes[|passes| - 1].run;
      setup.repair(run[|run| - 1].response)
  }

  ghost predicate IsPass(w: Window, base: Plan, p: Pass, turn: seq<Message>, thinkingOff: bool) {
    && p.plan == base.(turn := turn, thinkingOff := thinkingOff) && p.plan.floor <= |p.plan.groups|
    && p.run != [] && IsRetrimRun(w, p.plan, p.run, p.cals)
  }

  /** Truncated without a usable call: thinking goes off for the rest of the rollout, where it can. */
  predicate TurnsOff(setup: Setup, r: Response) {
    r.Completed? && r.cutOff && !ParseOf(r, setup).Actions? && setup.thinkingToggleable
  }

  /** Whether the next attempt of a turn is made with thinking off. */
  function NextOff(setup: Setup, off: bool, passes: seq<Pass>): bool {
    if passes == [] then off
    else
      var run := passes[|passes| - 1].run;
      NextOff(setup, off, passes[..|passes| - 1]) || (run != [] && TurnsOff(setup, run[|run| - 1].response))
  }

  /** The answer's calls can be acted on. */
  predicate Usable(r: Response, setup: Setup) {
    r.Completed? && ParseOf(r, setup).Actions?
  }

  /** The answer makes calls, all of them of tools that were offered and with arguments that are in order. */
  predicate CanBeActedOn(setup: Setup, r: Response) {
    match r
    case Completed(calls, _, _) =>
      calls != [] && forall c :: c in calls ==> c.name in setup.offered && setup.validate(c).Some?
    case _ => false
  }

  /** All calls of an answer are acted on, in order, or none. */
  lemma UsableIff(r: Response, setup: Setup)
    ensures Usable(r, setup) <==> CanBeActedOn(setup, r)
    ensures Usable(r, setup) ==>
      && |ParseOf(r, setup).actions| == |r.calls|
      && forall i :: 0 <= i < |r.calls| ==>
           r.calls[i].name in setup.offered && setup.validate(r.calls[i]) == Some(ParseOf(r, setup).actions[i])
  {
    if Usable(r, setup) {
      forall i | 0 <= i < |r.calls|
        ensures r.calls[i].name in setup.offered && setup.validate(r.calls[i]) == Some(ParseOf(r, setup).actions[i])
      {
        assert r.calls[i] in r.calls;
      }
    }
  }

  /** Cut off inside a tool call where thinking is off already, or cannot be turned off: not repaired. */
  predicate GivesUp(setup: Setup, r: Response, off: bool) {
    IsPayloadCutoff(r, setup) && (off || !setup.thinkingToggleable)
  }

  /** Only an answer that the model gave and that cannot be acted on is repaired. */
  predicate Repairable(setup: Setup, r: Response, off: bool) {
    !r.Overflow? && !r.Failure? && !Usable(r, setup) && !GivesUp(setup, r, off)
  }

  predicate EndsRepairable(setup: Setup, passes: seq<Pass>) {
    passes != [] ==>
      var p := passes[|passes| - 1];
      p.run != [] && Repairable(setup, p.run[|p.run| - 1].response, p.plan.thinkingOff)
  }

  /** A pass follows only answers that are to be repaired. */
  ghost predicate PassOk(w: Window, setup: Setup, base: Plan, before: seq<Pass>, p: Pass) {
    && IsPass(w, base, p, NextTurn(setup, before), NextOff(setup, base.thinkingOff, before))
    && EndsRepairable(setup, before)
  }

  /** A turn's attempts: all over the same history, each answering the one before. */
  ghost predicate Conversation(w: Window, setup: Setup, base: Plan, passes: seq<Pass>) {
    passes != [] ==>
      var init := passes[..|passes| - 1];
      Conversation(w, setup, base, init) && PassOk(w, setup, base, init, passes[|passes| - 1])
  }

  function AllExchanges(passes: seq<Pass>): seq<Exchange> {
    if passes == [] then [] else AllExchanges(passes[..|passes| - 1]) + passes[|passes| - 1].run
  }

  lemma ConversationExtends(w: Window, setup: Setup, base: Plan, passes: seq<Pass>, p: Pass)
    requires Conversation(w, setup, base, passes) && PassOk(w, setup, base, passes, p)
    ensures Conversation(w, setup, base, passes + [p])
    ensures AllExchanges(passes + [p]) == AllExchanges(passes) + p.run
    ensures NextTurn(setup, passes + [p]) == setup.repair(p.run[|p.run| - 1].response)
    ensures NextOff(setup, base.thinkingOff, passes + [p]) ==
      (NextOff(setup, base.thinkingOff, passes) || TurnsOff(setup, p.run[|p.run| - 1].response))
  {
    assert (passes + [p])[..|passes|] == passes;
  }

  lemma PassFits(w: Window, setup: Setup, trajectory: seq<Step>, off: bool, now: bool, before: seq<Pass>, p: Pass)
    requires IsPass(w, BasePlan(setup, trajectory, now), p, NextTurn(setup, before), now)
    requires now == NextOff(setup, off, before) && EndsRepairable(setup, before)
    ensures PassOk(w, setup, BasePlan(setup, trajectory, off), before, p)
  {
  }

  function LastAnswer(log: seq<Exchange>): Response {
    if log == [] then Failure else log[|log| - 1].response
  }

  /** What was exchanged since `start` is the conversation of `passes`. */
  ghost predicate Talked(w: Window, setup: Setup, base: Plan, start: seq<Exchange>, log: seq<Exchange>, passes: seq<Pass>) {
    Conversation(w, setup, base, passes) && log == start + AllExchanges(passes)
  }

  lemma TalkExtends(w: Window, setup: Setup, base: Plan, start: seq<Exchange>, log: seq<Exchange>, passes: seq<Pass>, p: Pass)
    requires Talked(w, setup, base, start, log, passes) && PassOk(w, setup, base, passes, p)
    ensures Talked(w, setup, base, start, log + p.run, passes + [p])
    ensures NextTurn(setup, passes + [p]) == setup.repair(LastAnswer(log + p.run))
    ensures NextOff(setup, base.thinkingOff, passes + [p]) ==
      (NextOff(setup, base.thinkingOff, passes) || TurnsOff(setup, LastAnswer(log + p.run)))
    ensures EndsRepairable(setup, passes + [p]) <==>
      Repairable(setup, LastAnswer(log + p.run), NextOff(setup, base.thinkingOff, passes))
  {
    ConversationExtends(w, setup, base, passes, p);
  }

  /** A fitted completion under way, about to send its next request under `cal`. */
  ghost predicate InFlight(w: Window, plan: Plan, run: seq<Exchange>, cals: seq<real>, cal: real) {
    && plan.floor <= |plan.groups| && plan.head != []
    && IsRetrimRun(w, plan, run, cals)
    && (run != [] ==> Follows(w, run[|run| - 1], cals[|cals| - 1], cal))
  }

  /** No further round follows: it was answered, or tightening would change nothing. */
  ghost predicate EndsWith(w: Window, e: Exchange, before: real, after: real) {
    && (e.response.Overflow? ==> TightenedAfter(w, before, e) == before)
    && (!e.response.Completed? ==> after == before)
  }

  lemma RequestIsEstimable(w: Window, plan: Plan, cal: real)
    requires plan.floor <= |plan.groups| && plan.head != []
    ensures w.Estimate(RequestFor(w, cal, plan).messages) > 0
  {
    EstimatePositive(w.counter, w.toolsJson, RequestFor(w, cal, plan).messages);
  }

  datatype Next = Take(actions: seq<Action>) | Stop | Escape | GiveUp(error: string) | Retry(error: string)

  const LENGTH_CUTOFF_ABORT_THRESHOLD := 2

  function AttemptLimit(setup: Setup): nat {
    if setup.maxOutputRetries + 1 > 0 then setup.maxOutputRetries + 1 else 0
  }

  function ParseOf(r: Response, setup: Setup): Parsed
    requires r.Completed?
  {
    Parse(r.calls, setup.offered, setup.validate, setup.complaint)
  }

  /** The error text of an answer that could not be acted on. */
  function ErrorOf(r: Response, setup: Setup): string {
    match r
    case Rejected(error) => error
    case Completed(calls, _, _) => setup.complaint(calls)
    case _ => ""
  }

  /** The answer was cut off inside a tool call. */
  predicate IsPayloadCutoff(r: Response, setup: Setup) {
    r.Completed? && r.cutOff && ParseOf(r, setup).Invalid?
  }

  class LlmAgent {
    const llm: Backend
    const window: Window
    const setup: Setup
    var trajectory: seq<Step>
    var thinkingDisabled: bool
    var lengthCutoffs: nat
    ghost const since: nat

    constructor (llm: Backend, window: Window, setup: Setup)
      requires setup.head != [] && window.Valid()
      ensures Valid() && trajectory == [] && !thinkingDisabled && lengthCutoffs == 0
      ensures this.llm == llm && this.window == window && this.setup == setup
    {
      this.llm, this.window, this.setup, trajectory, thinkingDisabled, lengthCutoffs := llm, window, setup, [], false, 0;
      since := |llm.log|;
    }

    /** The exchanges of this rollout. */
    ghost function Exchanges(): seq<Exchange>
      reads this, llm
      requires since <= |llm.log|
    {
      llm.log[since..]
    }

    /** The cutoff counter counts, thinking never comes back once it is off, and it only goes off where it can
        be toggled. */
    ghost predicate Valid()
      reads this, llm, window
    {
      && since <= |llm.log| && window.Valid() && setup.head != []
      && lengthCutoffs == Cutoffs(Exchanges())
      && (thinkingDisabled ==> setup.thinkingToggleable)
      && ThinkingStaysOff(Exchanges(), thinkingDisabled)
    }

    /** `assemble`: one group per step, and the floor. */
    method Assemble() returns (groups: seq<seq<Message>>, floor: int)
      ensures groups == Rendered(setup, trajectory) && floor == Floor(trajectory)
    {
      var newest, i := -1, 0;
      groups := [];
      while i < |trajectory|
        invariant i <= |trajectory| && |groups| == i
        invariant forall k :: 0 <= k < i ==> groups[k] == setup.render(trajectory[k], k + 1)
        invariant newest == NewestExecuted(trajectory[..i])
      {
        assert trajectory[..i + 1][..i] == trajectory[..i];
        if trajectory[i].Executed? { newest := i; }
        groups := groups + [setup.render(trajectory[i], i + 1)];
        i := i + 1;
      }
      assert trajectory[..i] == trajectory;
      NewestExecutedIsLast(trajectory);
      floor := if newest >= 0 then newest else |groups| - 1;
    }

    /** One fitted request and its answer. */
    method CompleteOnce(plan: Plan) returns (e: Exchange)
      requires plan.floor <= |plan.groups|
      modifies llm`log
      ensures llm.log == old(llm.log) + [e] && e.request == RequestFor(window, window.calibration, plan)
    {
      var base, dropped := window.Fit(plan.head, plan.groups, plan.floor, plan.turn);
      var request := Request(base + plan.turn, plan.thinkingOff);
      var r := llm.Complete(request);
      e := Exchange(request, r);
    }

    /** What an answer does to the calibration, and whether to retrim. */
    method Adjust(e: Exchange) returns (again: bool)
      requires window.Valid() && window.Estimate(e.request.messages) > 0
      modifies window`calibration
      ensures window.Valid()
      ensures again <==> e.response.Overflow? && TightenedAfter(window, old(window.calibration), e) > old(window.calibration)
      ensures again ==> window.calibration == TightenedAfter(window, old(window.calibration), e)
      ensures !again ==> EndsWith(window, e, old(window.calibration), window.calibration)
    {
      match e.response
      case Overflow(inputTokens) => again := window.ShrinkForOverflow(inputTokens, e.request.messages);
      case Completed(_, _, promptTokens) => window.CalibrateFromUsage(promptTokens, e.request.messages); again := false;
      case _ => again := false;
    }

    /** One round of `_complete_fitted`. */
    method SendOnce(plan: Plan, ghost run: seq<Exchange>, ghost cals: seq<real>) returns (e: Exchange, again: bool)
      requires window.Valid() && InFlight(window, plan, run, cals, window.calibration)
      modifies llm`log, window`calibration
      ensures window.Valid() && llm.log == old(llm.log) + [e]
      ensures IsRetrimRun(window, plan, run + [e], cals + [old(window.calibration)])
      ensures again ==>
        e.response.Overflow? && InFlight(window, plan, run + [e], cals + [old(window.calibration)], window.calibration)
      ensures !again ==> EndsWith(window, e, old(window.calibration), window.calibration)
    {
      ghost var cal := window.calibration;
      RequestIsEstimable(window, plan, cal);
      e := CompleteOnce(plan);
      RetrimRunExtends(window, plan, run, cals, e, cal);
      again := Adjust(e);
    }

    /** `_complete_fitted`. Every request is the fit at the calibration of its moment, and the calibration
        strictly rises from one to the next by the tightening of the overflow in between; all answers but the
        last are overflows; an overflow is passed on only when the retrims are used up or tightening is. */
    method CompleteFitted(turn: seq<Message>, thinkingOff: bool)
      returns (r: Response, ghost plan: Plan, ghost run: seq<Exchange>, ghost cals: seq<real>)
      requires window.Valid() && setup.head != []
      modifies llm`log, window`calibration
      ensures plan == BasePlan(setup, trajectory, thinkingOff).(turn := turn) && plan.floor <= |plan.groups|
      ensures window.Valid() && llm.log == old(llm.log) + run
      ensures 1 <= |run| == |cals| <= 4 && cals[0] == old(window.calibration)
      ensures IsRetrimRun(window, plan, run, cals) && r == run[|run| - 1].response
      ensures || (|run| == RETRIM_BUDGET + 1 && r.Overflow?)
              || EndsWith(window, run[|run| - 1], cals[|run| - 1], window.calibration)
    {
      var groups, floor := Assemble();
      NewestExecutedIsLast(trajectory);
      var p := Plan(setup.head, groups, floor, turn, thinkingOff);
      var budget := RETRIM_BUDGET + 1;
      r, plan, run, cals := Failure, p, [], [];
      while budget > 0
        invariant 0 <= budget <= RETRIM_BUDGET + 1 && window.Valid() && llm.log == old(llm.log) + run
        invariant |cals| == |run| == RETRIM_BUDGET + 1 - budget
        invariant InFlight(window, p, run, cals, window.calibration)
        invariant run == [] ==> window.calibration == old(window.calibration)
        invariant run != [] ==> cals[0] == old(window.calibration) && r == run[|run| - 1].response && r.Overflow?
      {
        ghost var cal := window.calibration;
        var e, again := SendOnce(p, run, cals);
        r, run, cals := e.response, run + [e], cals + [cal];
        if !again { return; }
        budget := budget - 1;
      }
    }

    /** What `act` does with a completion: act on it, give up, stop the rollout, or repair. */
    method Digest(r: Response) returns (next: Next)
      requires r.Completed?
      modifies this`thinkingDisabled, this`lengthCutoffs
      ensures lengthCutoffs == old(lengthCutoffs) + if IsCutoff(r) then 1 else 0
      ensures thinkingDisabled == (old(thinkingDisabled) || (next.Retry? && TurnsOff(setup, r)))
      ensures next.Take? <==> ParseOf(r, setup).Actions?
      ensures next.Take? ==> ParseOf(r, setup) == Actions(next.actions)
      ensures !next.Escape? && (next.Retry? || next.GiveUp? ==> next.error == setup.complaint(r.calls))
      ensures next.Stop? <==> IsCutoff(r) && lengthCutoffs >= LENGTH_CUTOFF_ABORT_THRESHOLD
      ensures next.GiveUp? <==> GivesUp(setup, r, old(thinkingDisabled))
    {
      var parsed := ParseOf(r, setup);
      if parsed.Actions? { return Take(parsed.actions); }
      var error := setup.complaint(r.calls);
      if r.cutOff {
        if parsed.Missing? {
          lengthCutoffs := lengthCutoffs + 1;
          if lengthCutoffs >= LENGTH_CUTOFF_ABORT_THRESHOLD { return Stop; }
        } else if thinkingDisabled || !setup.thinkingToggleable {
          return GiveUp(error);
        }
        if setup.thinkingToggleable { thinkingDisabled := true; }
      }
      next := Retry(error);
    }

    /** One attempt of a turn. */
    method Attempt(turn: seq<Message>, ghost start: seq<Exchange>, ghost attempt: nat) returns (r: Response, ghost pass: Pass)
      requires Valid() && SoFar(start, llm.log, attempt)
      modifies llm`log, window`calibration
      ensures window.Valid() && since <= |llm.log| && start < llm.log && r == LastAnswer(llm.log)
      ensures llm.log == old(llm.log) + pass.run
      ensures IsPass(window, BasePlan(setup, trajectory, thinkingDisabled), pass, turn, thinkingDisabled)
      ensures lengthCutoffs + (if IsCutoff(r) then 1 else 0) == Cutoffs(Exchanges())
      ensures ThinkingStaysOff(Exchanges(), thinkingDisabled)
      ensures if r.Overflow? then Ended(start, llm.log, attempt) else SoFar(start, llm.log, attempt + 1)
    {
      ghost var log, plan, run, cals := llm.log, *, *, *;
      r, plan, run, cals := CompleteFitted(turn, thinkingDisabled);
      AllButLastOverflow(window, plan, run, cals);
      AttemptKeeps(start, log, run, attempt, since, thinkingDisabled);
      pass := Pass(plan, run, cals);
    }

    /** An attempt as part of the turn's conversation. */
    method Answer(turn: seq<Message>, ghost start: seq<Exchange>, ghost attempt: nat, ghost off: bool,
                  ghost before: seq<Pass>)
      returns (r: Response, ghost passes: seq<Pass>)
      requires Valid() && SoFar(start, llm.log, attempt) && turn == NextTurn(setup, before)
      requires Talked(window, setup, BasePlan(setup, trajectory, off), start, llm.log, before)
      requires thinkingDisabled == NextOff(setup, off, before) && EndsRepairable(setup, before)
      modifies llm`log, window`calibration
      ensures window.Valid() && since <= |llm.log| && start < llm.log && r == LastAnswer(llm.log)
      ensures Talked(window, setup, BasePlan(setup, trajectory, off), start, llm.log, passes)
      ensures NextTurn(setup, passes) == setup.repair(r)
      ensures NextOff(setup, off, passes) == (thinkingDisabled || TurnsOff(setup, r))
      ensures EndsRepairable(setup, passes) <==> Repairable(setup, r, thinkingDisabled)
      ensures lengthCutoffs + (if IsCutoff(r) then 1 else 0) == Cutoffs(Exchanges())
      ensures ThinkingStaysOff(Exchanges(), thinkingDisabled)
      ensures if r.Overflow? then Ended(start, llm.log, attempt) else SoFar(start, llm.log, attempt + 1)
    {
      ghost var log, pass := llm.log, *;
      r, pass := Attempt(turn, start, attempt);
      PassFits(window, setup, trajectory, off, thinkingDisabled, before, pass);
      TalkExtends(window, setup, BasePlan(setup, trajectory, off), start, log, before, pass);
      passes := before + [pass];
    }

    /** One pass of the loop in `act`: an attempt and what becomes of its answer. */
    method Try(turn: seq<Message>, ghost start: seq<Exchange>, ghost attempt: nat, ghost off: bool, ghost before: seq<Pass>)
      returns (r: Response, next: Next, ghost passes: seq<Pass>)
      requires Valid() && SoFar(start, llm.log, attempt) && turn == NextTurn(setup, before)
      requires Talked(window, setup, BasePlan(setup, trajectory, off), start, llm.log, before)
      requires thinkingDisabled == NextOff(setup, off, before) && EndsRepairable(setup, before)
      modifies this`thinkingDisabled, this`lengthCutoffs, llm`log, window`calibration
      ensures Valid() && (old(thinkingDisabled) ==> thinkingDisabled)
      ensures start < llm.log && r == LastAnswer(llm.log)
      ensures Talked(window, setup, BasePlan(setup, trajectory, off), start, llm.log, passes)
      ensures NextTurn(setup, passes) == setup.repair(r)
      ensures next.Retry? ==> thinkingDisabled == NextOff(setup, off, passes) && EndsRepairable(setup, passes)
      ensures next.Retry? || next.GiveUp? ==> next.error == ErrorOf(r, setup)
      ensures if r.Overflow? then Ended(start, llm.log, attempt) else SoFar(start, llm.log, attempt + 1)
      ensures next.Escape? <==> r.Overflow? || r.Failure?
      ensures (next.Take? <==> Usable(r, setup)) && (next.Take? ==> ParseOf(r, setup) == Actions(next.actions))
      ensures lengthCutoffs == old(lengthCutoffs) + if IsCutoff(r) then 1 else 0
      ensures next.Stop? <==> IsCutoff(r) && lengthCutoffs >= LENGTH_CUTOFF_ABORT_THRESHOLD
      ensures next.GiveUp? <==> GivesUp(setup, r, old(thinkingDisabled))
    {
      hide Talked, SoFar, Ended, NextTurn, NextOff, EndsRepairable, ThinkingStaysOff, Parse;
      r, passes := Answer(turn, start, attempt, off, before);
      if r.Overflow? || r.Failure? { return r, Escape, passes; }
      if r.Rejected? { return r, Retry(r.error), passes; }
      StaysOffWhenDisabled(Exchanges(), thinkingDisabled);
      next := Digest(r);
    }

    /** The loop of `act`. */
    method Attempts() returns (t: Turn, attempt: nat, lastError: string, ghost passes: seq<Pass>)
      requires Valid()
      modifies this`thinkingDisabled, this`lengthCutoffs, llm`log, window`calibration
      ensures Valid() && (old(thinkingDisabled) ==> thinkingDisabled)
      ensures Talked(window, setup, BasePlan(setup, trajectory, old(thinkingDisabled)), old(llm.log), llm.log, passes)
      ensures t.NoValidAction? ==> SoFar(old(llm.log), llm.log, attempt) && attempt <= AttemptLimit(setup)
      ensures t.NoValidAction? ==>
        lastError == if attempt == 0 then "unknown parse error" else ErrorOf(LastAnswer(llm.log), setup)
      ensures t.NoValidAction? && attempt < AttemptLimit(setup) ==>
        attempt > 0 && (thinkingDisabled || !setup.thinkingToggleable) && IsPayloadCutoff(LastAnswer(llm.log), setup)
      ensures !t.NoValidAction? ==> attempt < AttemptLimit(setup) && old(llm.log) < llm.log
      ensures !t.NoValidAction? ==>
        if t.ContextOverflow? then Ended(old(llm.log), llm.log, attempt) else SoFar(old(llm.log), llm.log, attempt + 1)
      ensures t.Acted? <==> old(llm.log) < llm.log && Usable(LastAnswer(llm.log), setup)
      ensures t.Acted? ==> ParseOf(LastAnswer(llm.log), setup) == Actions(t.actions)
      ensures t.ContextOverflow? <==> old(llm.log) < llm.log && LastAnswer(llm.log).Overflow?
      ensures t.BackendFailed? <==> old(llm.log) < llm.log && LastAnswer(llm.log).Failure?
      ensures t.RepeatedCutoff? <==> lengthCutoffs > old(lengthCutoffs) && lengthCutoffs >= LENGTH_CUTOFF_ABORT_THRESHOLD
    {
      var turn := [];
      lastError, attempt, passes := "unknown parse error", 0, [];
      while attempt < setup.maxOutputRetries + 1
        invariant 0 <= attempt <= AttemptLimit(setup)
        invariant Valid() && (old(thinkingDisabled) ==> thinkingDisabled)
        invariant SoFar(old(llm.log), llm.log, attempt)
        invariant Talked(window, setup, BasePlan(setup, trajectory, old(thinkingDisabled)), old(llm.log), llm.log, passes)
        invariant turn == NextTurn(setup, passes) && thinkingDisabled == NextOff(setup, old(thinkingDisabled), passes)
        invariant EndsRepairable(setup, passes)
        invariant var r := LastAnswer(llm.log); attempt > 0 ==> !r.Overflow? && !r.Failure? && !Usable(r, setup)
        invariant lastError == if attempt == 0 then "unknown parse error" else ErrorOf(LastAnswer(llm.log), setup)
        invariant lengthCutoffs == old(lengthCutoffs) || old(lengthCutoffs) < lengthCutoffs < LENGTH_CUTOFF_ABORT_THRESHOLD
      {
        var r, next;
        r, next, passes := Try(turn, old(llm.log), attempt, old(thinkingDisabled), passes);
        match next
        case Escape => return if r.Overflow? then ContextOverflow else BackendFailed, attempt, lastError, passes;
        case Take(actions) => return Acted(actions), attempt, lastError, passes;
        case Stop => return RepeatedCutoff, attempt, lastError, passes;
        case GiveUp(error) => attempt, lastError := attempt + 1, error; break;
        case Retry(error) => attempt, lastError := attempt + 1, error; turn := setup.repair(r);
      }
      t := NoValidAction;
    }

    /** `act`. A turn makes at most 4 * (maxOutputRetries + 1) requests, each attempt
        repairing the answer before. It acts exactly when its last answer can be acted on, or leaves one failed step
        that counts its answered attempts and quotes the last error, or leaves the trajectory alone. */
    method Act() returns (t: Turn, ghost passes: seq<Pass>)
      requires Valid()
      modifies this`trajectory, this`thinkingDisabled, this`lengthCutoffs, llm`log, window`calibration
      ensures Valid() && (old(thinkingDisabled) ==> thinkingDisabled)
      ensures Talked(window, setup, BasePlan(setup, old(trajectory), old(thinkingDisabled)), old(llm.log), llm.log, passes)
      ensures |llm.log| - |old(llm.log)| <= 4 * if setup.maxOutputRetries < 0 then 0 else setup.maxOutputRetries + 1
      ensures t.NoValidAction? ==>
        var attempts := Answered(llm.log[|old(llm.log)|..]);
        && attempts <= AttemptLimit(setup)
        && trajectory == old(trajectory) + [FailedStep(
             if attempts == 0 then 1 else attempts,
             if attempts == 0 then "unknown parse error" else ErrorOf(LastAnswer(llm.log), setup))]
        && (attempts < AttemptLimit(setup) ==>
              attempts > 0 && (thinkingDisabled || !setup.thinkingToggleable) && IsPayloadCutoff(LastAnswer(llm.log), setup))
      ensures !t.NoValidAction? ==> trajectory == old(trajectory) && old(llm.log) < llm.log
      ensures t.Acted? <==> old(llm.log) < llm.log && Usable(LastAnswer(llm.log), setup)
      ensures t.Acted? ==> ParseOf(LastAnswer(llm.log), setup) == Actions(t.actions)
      ensures t.ContextOverflow? <==> old(llm.log) < llm.log && LastAnswer(llm.log).Overflow?
      ensures t.BackendFailed? <==> old(llm.log) < llm.log && LastAnswer(llm.log).Failure?
      ensures t.RepeatedCutoff? <==> lengthCutoffs > old(lengthCutoffs) && lengthCutoffs >= 2
      ensures t.Acted? <==> old(llm.log) < llm.log && CanBeActedOn(setup, LastAnswer(llm.log))
      ensures t.Acted? ==> var calls := LastAnswer(llm.log).calls;
        && |t.actions| == |calls| > 0
        && forall i :: 0 <= i < |calls| ==> calls[i].name in setup.offered && setup.validate(calls[i]) == Some(t.actions[i])
    {
      var attempt, lastError;
      t, attempt, lastError, passes := Attempts();
      UsableIff(LastAnswer(llm.log), setup);
      if t.NoValidAction? {
        trajectory := trajectory + [FailedStep(if attempt == 0 then 1 else attempt, lastError)];
      }
    }

    /** `observe`: only a step that did not end the episode is remembered. */
    method Observe(action: Action, output: RawOutput, ended: bool)
      requires Valid()
      modifies this`trajectory
      ensures Valid() && trajectory == if ended then old(trajectory) else old(trajectory) + [Executed(action, output)]
    {
      if !ended { trajectory := trajectory + [Executed(action, output)]; }
    }
  }
}
