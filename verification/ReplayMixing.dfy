/** Replay against an environment given by its runs: whole sequences of steps, so that results may depend on one
    another. Every row is the last result of a recorded run (module ReplaySystem), but rows of different runs are
    served together; this module says exactly when what is served is itself a run
    (src/plugins/replay/step_cache.py over src/plugins/caching/store.py). */
module ReplayMixing {
  import opened EnvSteps
  import opened ReplayProtocol
  import opened ReplaySystem

  /** The runs of the environment of a scope. */
  type RunRelation = (Scope, seq<EnvStep>) -> bool

  /** Every beginning of a run is a run. */
  ghost predicate PrefixClosed(isRun: RunRelation) {
    forall sc, log, e :: isRun(sc, log + [e]) ==> log == [] || isRun(sc, log)
  }

  // ------------------------------------------------------------ schedules over runs

  function AnyResult(sc: Scope, h: seq<Action>, r: StepResult): bool { true }

  /** What the env of an attempt is asked to execute. */
  function Asked(s: Attempt): Action
    requires s.chain != []
  {
    if s.pc.CatchUp? && s.pc.i < |s.replayed| then Run(s.replayed[s.pc.i].action) else s.chain[|s.chain| - 1]
  }

  /** As in module ReplaySystem, but a reply of an env continues the run that this env is in. */
  ghost predicate RunPossible(rg: Regime, isRun: RunRelation, reliable: bool, g: System, m: Move) {
    && Possible(rg, AnyResult, reliable, g, m)
    && (m.Do? && m.event.EnvReply? ==>
          var s := g.attempts[m.i];
          s.chain != [] && isRun(s.scope, s.envLog + [EnvStep(Asked(s), m.event.result)]))
  }

  ghost predicate RunSchedule(rg: Regime, isRun: RunRelation, reliable: bool, g: System, ms: seq<Move>)
    decreases |ms|
  {
    ms == [] || (RunPossible(rg, isRun, reliable, g, ms[0])
                 && RunSchedule(rg, isRun, reliable, Apply(rg, g, ms[0]), ms[1..]))
  }

  ghost function RunOutcome(rg: Regime, isRun: RunRelation, reliable: bool, g: System, ms: seq<Move>): System
    requires RunSchedule(rg, isRun, reliable, g, ms)
    decreases |ms|
  {
    if ms == [] then g else RunOutcome(rg, isRun, reliable, Apply(rg, g, ms[0]), ms[1..])
  }

  /** Some schedule leads from the empty system to `g`. */
  ghost predicate RunReaches(rg: Regime, isRun: RunRelation, reliable: bool, g: System) {
    exists ms :: RunSchedule(rg, isRun, reliable, Empty, ms) && RunOutcome(rg, isRun, reliable, Empty, ms) == g
  }

  // ------------------------------------------------------------ recorded runs and their mixtures

  /** Not skipped when it takes no time: the step can be recorded. */
  predicate StepRecordable(rg: Regime, e: EnvStep) {
    e.action.Run? ==> !SkipRecording(rg, e.action.run, e.result, 0.0)
  }

  ghost predicate LogRecordable(rg: Regime, log: seq<EnvStep>) {
    forall k :: 0 <= k < |log| ==> StepRecordable(rg, log[k])
  }

  /** A run that can be recorded from its beginning to its end. */
  ghost predicate RecordableRun(rg: Regime, isRun: RunRelation, sc: Scope, log: seq<EnvStep>) {
    && log != [] && isRun(sc, log) && LogRecordable(rg, log)
    && forall k :: 0 <= k < |log| - 1 ==> log[k].action.Run?
  }

  /** For each length, a recordable run of that many actions of one chain. */
  ghost predicate Family(rg: Regime, isRun: RunRelation, sc: Scope, ls: seq<seq<EnvStep>>) {
    ls != [] && Staircase(ls) && forall k :: 0 <= k < |ls| ==> FamilyAt(rg, isRun, sc, ls, k)
  }

  ghost predicate Staircase(ls: seq<seq<EnvStep>>) {
    forall k :: 0 <= k < |ls| ==> |ls[k]| == k + 1
  }

  ghost predicate FamilyAt(rg: Regime, isRun: RunRelation, sc: Scope, ls: seq<seq<EnvStep>>, k: nat)
    requires k < |ls|
  {
    && RecordableRun(rg, isRun, sc, ls[k]) && |ls[k]| == k + 1 && |ls[|ls| - 1]| == |ls|
    && Actions(ls[k]) == Actions(ls[|ls| - 1])[..k + 1]
  }

  /** The `k`-th step of the `k`-th run, for each `k`. */
  ghost function Mixture(ls: seq<seq<EnvStep>>): (log: seq<EnvStep>)
    requires Staircase(ls)
    ensures |log| == |ls| && forall k :: 0 <= k < |ls| ==> log[k] == ls[k][k]
  {
    seq(|ls|, k requires 0 <= k < |ls| => ls[k][k])
  }

  /** Whatever recordable runs the steps are taken from, together they are a run. */
  ghost predicate MixClosed(rg: Regime, isRun: RunRelation) {
    forall sc, ls :: Family(rg, isRun, sc, ls) ==> isRun(sc, Mixture(ls))
  }

  // ------------------------------------------------------------ every row ends a recordable run

  ghost predicate HasRun(rg: Regime, isRun: RunRelation, sc: Scope, c: seq<Action>, v: StepResult) {
    exists log :: Ending(rg, isRun, sc, c, v, log)
  }

  ghost predicate Ending(rg: Regime, isRun: RunRelation, sc: Scope, c: seq<Action>, v: StepResult, log: seq<EnvStep>) {
    RecordableRun(rg, isRun, sc, log) && Actions(log) == c && log[|log| - 1].result == v
  }

  ghost predicate RowsEndRuns(rg: Regime, isRun: RunRelation, st: Store) {
    forall k :: k in st.entries ==> HasRun(rg, isRun, k.scope, k.chain, st.entries[k])
  }

  ghost predicate ServedAt(rg: Regime, isRun: RunRelation, s: Attempt, k: nat)
    requires k < |s.chain| && k < |s.outputs|
  {
    HasRun(rg, isRun, s.scope, s.chain[..k + 1], s.outputs[k])
  }

  predicate CanReproduce(rg: Regime, s: Attempt, k: nat)
    requires k < |s.chain| && k < |s.outputs|
  {
    StepRecordable(rg, EnvStep(s.chain[k], s.outputs[k]))
  }

  predicate Recording(s: Attempt) {
    s.live && s.recordable && (s.pc.Idle? || s.pc.Execute? || s.pc.Record?)
  }

  /** The env of the attempt is in a run; what was served comes from recordable runs; and while the attempt
      catches up or records, its own run is recordable. */
  ghost predicate Traced(rg: Regime, isRun: RunRelation, s: Attempt) {
    && |s.outputs| <= |s.chain|
    && (s.envLog != [] ==> isRun(s.scope, s.envLog))
    && (!s.live ==> forall k :: 0 <= k < |s.outputs| ==> ServedAt(rg, isRun, s, k))
    && (s.pc.CatchUp? ==> forall k :: 0 <= k < |s.outputs| ==> CanReproduce(rg, s, k))
    && (s.pc.CatchUp? || Recording(s) ==> LogRecordable(rg, s.envLog))
  }

  ghost predicate RunInv(rg: Regime, isRun: RunRelation, g: System) {
    && AllInv(rg, g) && RowsEndRuns(rg, isRun, g.store)
    && forall i :: 0 <= i < |g.attempts| ==> Traced(rg, isRun, g.attempts[i])
  }

  lemma NoTimeIsLess(rg: Regime, a: RunAction, r: StepResult, elapsed: real)
    requires elapsed >= 0.0 && !SkipRecording(rg, a, r, elapsed)
    ensures !SkipRecording(rg, a, r, 0.0)
  {
  }

  lemma ReproducedIsRecordable(rg: Regime, s: Attempt, p: Replayed, v: StepResult, r: StepResult)
    requires StepRecordable(rg, EnvStep(Run(p.action), v)) && Matches(rg, p, r)
    requires p.recordedHash == ScrubbedHash(rg.scrubber, v, Some(p.action.command))
    ensures StepRecordable(rg, EnvStep(Run(p.action), r))
  {
    assert LiveHash(rg.scrubber, r, Some(p.action.command)).output.exitCode == r.output.exitCode;
    assert ScrubbedHash(rg.scrubber, v, Some(p.action.command)).output.exitCode == v.output.exitCode;
  }

  lemma ServedCanReproduce(rg: Regime, isRun: RunRelation, s: Attempt, k: nat)
    requires k < |s.chain| && k < |s.outputs| && ServedAt(rg, isRun, s, k)
    ensures CanReproduce(rg, s, k)
  {
    var log :| Ending(rg, isRun, s.scope, s.chain[..k + 1], s.outputs[k], log);
    assert |log| == |Actions(log)| == k + 1;
    assert log[k] == EnvStep(s.chain[k], s.outputs[k]);
  }

  lemma GoLiveTraced(rg: Regime, isRun: RunRelation, s: Attempt)
    requires Traced(rg, isRun, s) && !s.live && s.envLog == []
    ensures Traced(rg, isRun, GoLive(s))
  {
    forall k | 0 <= k < |s.outputs| ensures CanReproduce(rg, s, k) { ServedCanReproduce(rg, isRun, s, k); }
    var t := GoLive(s);
    forall k | 0 <= k < |t.outputs| ensures CanReproduce(rg, t, k) { assert CanReproduce(rg, s, k); }
  }

  lemma ServedTraced(rg: Regime, isRun: RunRelation, s: Attempt, v: StepResult)
    requires Traced(rg, isRun, s) && !s.live && |s.chain| == |s.outputs| + 1
    requires HasRun(rg, isRun, s.scope, s.chain, v)
    ensures Traced(rg, isRun, Served(rg, s, v))
  {
    var t := Served(rg, s, v);
    assert s.chain[..|s.chain|] == s.chain;
    forall k | 0 <= k < |t.outputs| ensures ServedAt(rg, isRun, t, k) {
      if k < |s.outputs| { assert ServedAt(rg, isRun, s, k); }
    }
  }

  lemma CallTraced(rg: Regime, isRun: RunRelation, s: Attempt, a: Action)
    requires Traced(rg, isRun, s) && s.pc.Idle?
    ensures Traced(rg, isRun, Next(rg, s, Call(a)))
  {
    var t := Next(rg, s, Call(a));
    if !s.live {
      forall k | 0 <= k < |t.outputs| ensures ServedAt(rg, isRun, t, k) {
        assert ServedAt(rg, isRun, s, k) && t.chain[..k + 1] == s.chain[..k + 1];
      }
    }
  }

  lemma CatchUpTraced(rg: Regime, isRun: RunRelation, s: Attempt, i: nat, r: StepResult)
    requires s.live && s.pc == CatchUp(i) && AttemptInv(rg, s) && Traced(rg, isRun, s) && i < |s.replayed|
    requires isRun(s.scope, s.envLog + [EnvStep(Run(s.replayed[i].action), r)])
    ensures Traced(rg, isRun, AfterCatchUp(rg, s, i, r))
  {
    var p, t := s.replayed[i], AfterCatchUp(rg, s, i, r);
    if Matches(rg, p, r) {
      assert CanReproduce(rg, s, i);
      ReproducedIsRecordable(rg, s, p, s.outputs[i], r);
      forall k | 0 <= k < |t.outputs| ensures CanReproduce(rg, t, k) { assert CanReproduce(rg, s, k); }
    }
  }

  lemma ExecuteTraced(rg: Regime, isRun: RunRelation, s: Attempt, r: StepResult, elapsed: real)
    requires s.live && s.pc.Execute? && AttemptInv(rg, s) && Traced(rg, isRun, s) && elapsed >= 0.0
    requires isRun(s.scope, s.envLog + [EnvStep(s.chain[|s.chain| - 1], r)])
    ensures Traced(rg, isRun, AfterExecute(rg, s, r, elapsed))
  {
    var a := s.chain[|s.chain| - 1];
    if a.Run? && !SkipRecording(rg, a.run, r, elapsed) { NoTimeIsLess(rg, a.run, r, elapsed); }
  }

  lemma NextTraced(rg: Regime, isRun: RunRelation, st: Store, s: Attempt, e: Event)
    requires AttemptInv(rg, s) && Enabled(s, e) && Traced(rg, isRun, s) && RowsEndRuns(rg, isRun, st)
    requires HonestReply(false, st, s, e)
    requires e.EnvReply? ==> s.chain != [] && isRun(s.scope, s.envLog + [EnvStep(Asked(s), e.result)]) && e.elapsed >= 0.0
    ensures Traced(rg, isRun, Next(rg, s, e))
  {
    match e
    case Call(a) => CallTraced(rg, isRun, s, a);
    case BlockedReply(found) =>
      SameTrace(rg, isRun, s, if found then s.(recordable := false) else s.(pc := AskEntry));
      if found { GoLiveTraced(rg, isRun, s.(recordable := false)); }
    case EntryReply(hit) =>
      if s.pc.AskEntry? {
        if hit.Some? { ServedTraced(rg, isRun, s, hit.value); } else { GoLiveTraced(rg, isRun, s); }
      }
    case EnvReply(r, elapsed) =>
      if s.pc.CatchUp? { CatchUpTraced(rg, isRun, s, s.pc.i, r); } else { ExecuteTraced(rg, isRun, s, r, elapsed); }
    case WriteReply =>
    case Raised => SameTrace(rg, isRun, s, s.(pc := Ended(Aborted)));
  }

  lemma SameTrace(rg: Regime, isRun: RunRelation, s: Attempt, t: Attempt)
    requires Traced(rg, isRun, s) && !t.pc.CatchUp? && !Recording(t)
    requires t.scope == s.scope && t.chain == s.chain && t.outputs == s.outputs && t.envLog == s.envLog && t.live == s.live
    ensures Traced(rg, isRun, t)
  {
    if !s.live {
      forall k | 0 <= k < |t.outputs| ensures ServedAt(rg, isRun, t, k) { assert ServedAt(rg, isRun, s, k); }
    }
  }

  lemma CommitKeepsRows(rg: Regime, isRun: RunRelation, st: Store, s: Attempt)
    requires AttemptInv(rg, s) && Traced(rg, isRun, s) && RowsEndRuns(rg, isRun, st)
    ensures RowsEndRuns(rg, isRun, Commit(st, s))
  {
    if s.pc.Record? {
      assert s.chain[..|s.chain|] == s.chain;
      assert |s.envLog| == |Actions(s.envLog)| == |s.chain|;
      forall k | 0 <= k < |s.envLog| - 1 ensures s.envLog[k].action.Run? { assert Actions(s.envLog)[k] == s.chain[k]; }
      assert Ending(rg, isRun, s.scope, s.chain, s.pc.result, s.envLog);
    }
  }

  lemma ApplyKeepsRunInv(rg: Regime, isRun: RunRelation, reliable: bool, g: System, m: Move)
    requires RunInv(rg, isRun, g) && RunPossible(rg, isRun, reliable, g, m)
    ensures RunInv(rg, isRun, Apply(rg, g, m))
  {
    ApplyKeepsAllInv(rg, AnyResult, reliable, g, m);
    if m.Do? {
      CommitKeepsRows(rg, isRun, g.store, g.attempts[m.i]);
      NextTraced(rg, isRun, g.store, g.attempts[m.i], m.event);
    }
  }

  lemma {:induction false} ScheduleKeepsRunInv(rg: Regime, isRun: RunRelation, reliable: bool, g: System, ms: seq<Move>)
    requires RunInv(rg, isRun, g) && RunSchedule(rg, isRun, reliable, g, ms)
    ensures RunInv(rg, isRun, RunOutcome(rg, isRun, reliable, g, ms))
    decreases |ms|
  {
    if ms != [] {
      ApplyKeepsRunInv(rg, isRun, reliable, g, ms[0]);
      ScheduleKeepsRunInv(rg, isRun, reliable, Apply(rg, g, ms[0]), ms[1..]);
    }
  }

  /** Whatever the schedule, the env of every attempt is in one of its runs, and every row of the store is the last
      result of a recordable run of its chain. */
  lemma EveryRowEndsARun(rg: Regime, isRun: RunRelation, reliable: bool, g: System)
    requires RunReaches(rg, isRun, reliable, g)
    ensures forall i :: 0 <= i < |g.attempts| && g.attempts[i].envLog != [] ==>
      isRun(g.attempts[i].scope, g.attempts[i].envLog)
    ensures forall k :: k in g.store.entries ==> HasRun(rg, isRun, k.scope, k.chain, g.store.entries[k])
  {
    var ms :| RunSchedule(rg, isRun, reliable, Empty, ms) && RunOutcome(rg, isRun, reliable, Empty, ms) == g;
    ScheduleKeepsRunInv(rg, isRun, reliable, Empty, ms);
    forall i | 0 <= i < |g.attempts| && g.attempts[i].envLog != []
      ensures isRun(g.attempts[i].scope, g.attempts[i].envLog)
    {
      assert Traced(rg, isRun, g.attempts[i]);
    }
  }

  // ------------------------------------------------------------ what is served

  /** What the caller of an attempt that is still served has seen. */
  function ServedLog(s: Attempt): (log: seq<EnvStep>)
    requires |s.outputs| <= |s.chain|
    ensures |log| == |s.outputs|
  {
    seq(|s.outputs|, k requires 0 <= k < |s.outputs| => EnvStep(s.chain[k], s.outputs[k]))
  }

  ghost predicate ServesARun(isRun: RunRelation, s: Attempt) {
    !s.live && s.outputs != [] ==> |s.outputs| <= |s.chain| && isRun(s.scope, ServedLog(s))
  }

  /** Under every schedule, whatever an attempt is served is a run of its environment. */
  ghost predicate AlwaysServesRuns(rg: Regime, isRun: RunRelation, reliable: bool) {
    forall g, i :: RunReaches(rg, isRun, reliable, g) && 0 <= i < |g.attempts| ==> ServesARun(isRun, g.attempts[i])
  }

  lemma {:induction false} PickRuns(rg: Regime, isRun: RunRelation, s: Attempt, n: nat) returns (ls: seq<seq<EnvStep>>)
    requires n <= |s.outputs| <= |s.chain| && forall k :: 0 <= k < |s.outputs| ==> ServedAt(rg, isRun, s, k)
    ensures |ls| == n
    ensures forall k :: 0 <= k < n ==> Ending(rg, isRun, s.scope, s.chain[..k + 1], s.outputs[k], ls[k])
  {
    if n == 0 {
      ls := [];
    } else {
      var init := PickRuns(rg, isRun, s, n - 1);
      assert ServedAt(rg, isRun, s, n - 1);
      var log :| Ending(rg, isRun, s.scope, s.chain[..n], s.outputs[n - 1], log);
      ls := init + [log];
    }
  }

  lemma ClosedServesRuns(rg: Regime, isRun: RunRelation, s: Attempt)
    requires MixClosed(rg, isRun) && Traced(rg, isRun, s)
    ensures ServesARun(isRun, s)
  {
    if !s.live && s.outputs != [] {
      var n := |s.outputs|;
      var ls := PickRuns(rg, isRun, s, n);
      forall k | 0 <= k < n ensures |ls[k]| == k + 1 && ls[k][k] == EnvStep(s.chain[k], s.outputs[k]) {
        assert Ending(rg, isRun, s.scope, s.chain[..k + 1], s.outputs[k], ls[k]);
        assert |ls[k]| == |Actions(ls[k])|;
      }
      forall k | 0 <= k < n ensures FamilyAt(rg, isRun, s.scope, ls, k) {
        assert Ending(rg, isRun, s.scope, s.chain[..k + 1], s.outputs[k], ls[k]);
        assert Ending(rg, isRun, s.scope, s.chain[..n], s.outputs[n - 1], ls[n - 1]);
        assert s.chain[..n][..k + 1] == s.chain[..k + 1];
      }
      assert Mixture(ls) == ServedLog(s);
    }
  }

  // ------------------------------------------------------------ a schedule for any mixture

  lemma {:induction false} RunScheduleAppend(
    rg: Regime, isRun: RunRelation, reliable: bool, g: System, ms: seq<Move>, m: Move)
    requires RunSchedule(rg, isRun, reliable, g, ms)
    requires RunPossible(rg, isRun, reliable, RunOutcome(rg, isRun, reliable, g, ms), m)
    ensures RunSchedule(rg, isRun, reliable, g, ms + [m])
    ensures RunOutcome(rg, isRun, reliable, g, ms + [m]) == Apply(rg, RunOutcome(rg, isRun, reliable, g, ms), m)
    decreases |ms|
  {
    if ms == [] {
      assert ms + [m] == [m] && [m][1..] == [];
      assert RunSchedule(rg, isRun, reliable, Apply(rg, g, m), []);
    } else {
      RunScheduleAppend(rg, isRun, reliable, Apply(rg, g, ms[0]), ms[1..], m);
      assert (ms + [m])[0] == ms[0] && (ms + [m])[1..] == ms[1..] + [m];
    }
  }

  lemma Step(rg: Regime, isRun: RunRelation, reliable: bool, g: System, m: Move) returns (g': System)
    requires RunReaches(rg, isRun, reliable, g) && RunPossible(rg, isRun, reliable, g, m)
    ensures g' == Apply(rg, g, m) && RunReaches(rg, isRun, reliable, g')
  {
    g' := Apply(rg, g, m);
    var ms :| RunSchedule(rg, isRun, reliable, Empty, ms) && RunOutcome(rg, isRun, reliable, Empty, ms) == g;
    RunScheduleAppend(rg, isRun, reliable, Empty, ms, m);
  }

  /** Attempt `i` is live, with `log` executed and offered to the store and `a` to be executed next. */
  ghost predicate Pending(g: System, i: nat, sc: Scope, log: seq<EnvStep>, a: Action) {
    && i < |g.attempts|
    && var s := g.attempts[i];
       && s.scope == sc && s.chain == Actions(log) + [a] && s.live && s.recordable && s.replayed == []
       && s.pc.Execute? && s.envLog == log
  }

  /** A new attempt misses its first action and goes live. */
  lemma Misses(rg: Regime, isRun: RunRelation, reliable: bool, sc: Scope, a: Action, g: System) returns (g': System)
    requires RunReaches(rg, isRun, reliable, g) && g.store == Store(map[], {})
    ensures RunReaches(rg, isRun, reliable, g') && g'.store == g.store && |g'.attempts| == |g.attempts| + 1
    ensures g'.attempts[..|g.attempts|] == g.attempts && Pending(g', |g.attempts|, sc, [], a)
  {
    var i := |g.attempts|;
    g' := Step(rg, isRun, reliable, g, Start(sc));
    g' := Step(rg, isRun, reliable, g', Do(i, Call(a), false));
    assert g'.attempts[i].chain == Actions([]) + [a];
    g' := Step(rg, isRun, reliable, g', Do(i, BlockedReply(false), false));
    g' := Step(rg, isRun, reliable, g', Do(i, EntryReply(None), false));
  }

  ghost predicate AllPending(g: System, n: nat, sc: Scope, a: Action) {
    |g.attempts| == n && g.store == Store(map[], {}) && forall i :: 0 <= i < n ==> Pending(g, i, sc, [], a)
  }

  lemma {:induction false} AllMiss(rg: Regime, isRun: RunRelation, reliable: bool, sc: Scope, a: Action, n: nat)
    returns (g: System)
    ensures RunReaches(rg, isRun, reliable, g) && AllPending(g, n, sc, a)
  {
    if n == 0 {
      g := Empty;
      assert RunSchedule(rg, isRun, reliable, Empty, []) && RunOutcome(rg, isRun, reliable, Empty, []) == Empty;
    } else {
      var g0 := AllMiss(rg, isRun, reliable, sc, a, n - 1);
      g := Misses(rg, isRun, reliable, sc, a, g0);
      forall i | 0 <= i < n ensures Pending(g, i, sc, [], a) {
        if i < n - 1 { assert Pending(g0, i, sc, [], a) && g.attempts[..n - 1][i] == g.attempts[i]; }
      }
    }
  }

  /** The env answers, and the answer is offered to the store. */
  lemma Records(rg: Regime, isRun: RunRelation, reliable: bool, sc: Scope, log: seq<EnvStep>, e: EnvStep, g: System, i: nat)
    returns (g': System)
    requires RunReaches(rg, isRun, reliable, g) && Pending(g, i, sc, log, e.action)
    requires isRun(sc, log + [e]) && StepRecordable(rg, e)
    ensures RunReaches(rg, isRun, reliable, g') && i < |g'.attempts| && g'.attempts == g.attempts[i := g'.attempts[i]]
    ensures g'.store == g.store.(entries := Insert(g.store.entries, Key(sc, Actions(log + [e])), e.result))
    ensures var s := g'.attempts[i];
      e.action.Run? ==>
        && s.scope == sc && s.chain == Actions(log + [e]) && s.live && s.recordable && s.replayed == []
        && s.pc.Idle? && s.envLog == log + [e]
  {
    assert Actions(log + [e]) == Actions(log) + [e.action];
    g' := Step(rg, isRun, reliable, g, Do(i, EnvReply(e.result, 0.0), false));
    assert g'.attempts[i].pc == Record(e.result);
    g' := Step(rg, isRun, reliable, g', Do(i, WriteReply, true));
  }

  lemma Continues(rg: Regime, isRun: RunRelation, reliable: bool, sc: Scope, log: seq<EnvStep>, a: Action, g: System, i: nat)
    returns (g': System)
    requires RunReaches(rg, isRun, reliable, g) && i < |g.attempts|
    requires var s := g.attempts[i];
      && s.scope == sc && s.chain == Actions(log) && s.live && s.recordable && s.replayed == []
      && s.pc.Idle? && s.envLog == log
    ensures RunReaches(rg, isRun, reliable, g') && g'.store == g.store
    ensures i < |g'.attempts| && g'.attempts == g.attempts[i := g'.attempts[i]] && Pending(g', i, sc, log, a)
  {
    g' := Step(rg, isRun, reliable, g, Do(i, Call(a), false));
  }

  function KeyAt(sc: Scope, ls: seq<seq<EnvStep>>, k: nat): Key
    requires k < |ls|
  {
    Key(sc, Actions(ls[k]))
  }

  /** The first `k` rows of the chain are there, each from its own run, and no other. */
  ghost predicate RowsUpTo(st: Store, sc: Scope, ls: seq<seq<EnvStep>>, k: nat)
    requires Staircase(ls)
  {
    st.blocked == {} && forall j :: 0 <= j < |ls| ==> RowAt(st, sc, ls, k, j)
  }

  ghost predicate RowAt(st: Store, sc: Scope, ls: seq<seq<EnvStep>>, k: nat, j: nat)
    requires Staircase(ls) && j < |ls|
  {
    var key := KeyAt(sc, ls, j);
    if j < k then key in st.entries && st.entries[key] == ls[j][j].result else key !in st.entries
  }

  lemma SameChain(rg: Regime, isRun: RunRelation, sc: Scope, ls: seq<seq<EnvStep>>, j: nat, k: nat)
    requires Family(rg, isRun, sc, ls) && j <= k < |ls|
    ensures Actions(ls[k][..j + 1]) == Actions(ls[j]) && ls[k][j].action == ls[j][j].action
  {
    assert FamilyAt(rg, isRun, sc, ls, j) && FamilyAt(rg, isRun, sc, ls, k);
    var all := Actions(ls[|ls| - 1]);
    assert Actions(ls[k][..j + 1]) == Actions(ls[k])[..j + 1] == all[..k + 1][..j + 1] == all[..j + 1];
    assert Actions(ls[k])[j] == Actions(ls[j])[j];
  }

  /** One step of attempt `k`: it leaves the rows as they are until its last, which it contributes. */
  lemma InsertsOwnRow(rg: Regime, isRun: RunRelation, sc: Scope, ls: seq<seq<EnvStep>>, j: nat, k: nat, st: Store, st': Store)
    requires Family(rg, isRun, sc, ls) && j <= k < |ls| && RowsUpTo(st, sc, ls, k)
    requires st' == st.(entries := Insert(st.entries, Key(sc, Actions(ls[k][..j + 1])), ls[k][j].result))
    ensures RowsUpTo(st', sc, ls, if j == k then k + 1 else k)
  {
    SameChain(rg, isRun, sc, ls, j, k);
    var k' := if j == k then k + 1 else k;
    assert RowAt(st, sc, ls, k, j);
    forall i | 0 <= i < |ls| ensures RowAt(st', sc, ls, k', i) {
      assert RowAt(st, sc, ls, k, i);
      if i != j { assert |KeyAt(sc, ls, i).chain| == i + 1; }
    }
  }

  /** Attempt `k` executes the first `j` steps of its run, its next pending. */
  lemma {:induction false} ExecutesUpTo(
    rg: Regime, isRun: RunRelation, reliable: bool, sc: Scope, ls: seq<seq<EnvStep>>, k: nat, j: nat, g: System)
    returns (g': System)
    requires PrefixClosed(isRun) && Family(rg, isRun, sc, ls) && j <= k < |ls|
    requires RunReaches(rg, isRun, reliable, g) && RowsUpTo(g.store, sc, ls, k) && Pending(g, k, sc, [], ls[k][0].action)
    ensures RunReaches(rg, isRun, reliable, g') && RowsUpTo(g'.store, sc, ls, k)
    ensures k < |g'.attempts| && g'.attempts == g.attempts[k := g'.attempts[k]]
    ensures Pending(g', k, sc, ls[k][..j], ls[k][j].action)
  {
    if j == 0 {
      g' := g;
    } else {
      var log, e := ls[k][..j - 1], ls[k][j - 1];
      var g0 := ExecutesUpTo(rg, isRun, reliable, sc, ls, k, j - 1, g);
      assert log + [e] == ls[k][..j];
      PrefixIsRun(rg, isRun, sc, ls, k, j);
      var g1 := Records(rg, isRun, reliable, sc, log, e, g0, k);
      InsertsOwnRow(rg, isRun, sc, ls, j - 1, k, g0.store, g1.store);
      g' := Continues(rg, isRun, reliable, sc, ls[k][..j], ls[k][j].action, g1, k);
    }
  }

  lemma PrefixIsRun(rg: Regime, isRun: RunRelation, sc: Scope, ls: seq<seq<EnvStep>>, k: nat, j: nat)
    requires PrefixClosed(isRun) && Family(rg, isRun, sc, ls) && k < |ls| && 0 < j <= k + 1
    ensures isRun(sc, ls[k][..j]) && StepRecordable(rg, ls[k][j - 1]) && (j <= k ==> ls[k][j - 1].action.Run?)
    decreases k + 1 - j
  {
    assert FamilyAt(rg, isRun, sc, ls, k);
    if j <= k {
      PrefixIsRun(rg, isRun, sc, ls, k, j + 1);
      assert ls[k][..j + 1] == ls[k][..j] + [ls[k][j]];
    } else {
      assert ls[k][..j] == ls[k];
    }
  }

  /** Attempt `k` executes its whole run. */
  lemma Contributes(rg: Regime, isRun: RunRelation, reliable: bool, sc: Scope, ls: seq<seq<EnvStep>>, k: nat, g: System)
    returns (g': System)
    requires PrefixClosed(isRun) && Family(rg, isRun, sc, ls) && k < |ls|
    requires RunReaches(rg, isRun, reliable, g) && RowsUpTo(g.store, sc, ls, k) && Pending(g, k, sc, [], ls[0][0].action)
    ensures RunReaches(rg, isRun, reliable, g') && RowsUpTo(g'.store, sc, ls, k + 1)
    ensures k < |g'.attempts| && g'.attempts == g.attempts[k := g'.attempts[k]]
  {
    SameChain(rg, isRun, sc, ls, 0, k);
    var g0 := ExecutesUpTo(rg, isRun, reliable, sc, ls, k, k, g);
    PrefixIsRun(rg, isRun, sc, ls, k, k + 1);
    assert ls[k][..k] + [ls[k][k]] == ls[k][..k + 1] == ls[k];
    g' := Records(rg, isRun, reliable, sc, ls[k][..k], ls[k][k], g0, k);
    InsertsOwnRow(rg, isRun, sc, ls, k, k, g0.store, g'.store);
  }

  lemma {:induction false} AllContribute(
    rg: Regime, isRun: RunRelation, reliable: bool, sc: Scope, ls: seq<seq<EnvStep>>, k: nat) returns (g: System)
    requires PrefixClosed(isRun) && Family(rg, isRun, sc, ls) && k <= |ls|
    ensures RunReaches(rg, isRun, reliable, g) && RowsUpTo(g.store, sc, ls, k) && |g.attempts| == |ls|
    ensures forall i :: k <= i < |ls| ==> Pending(g, i, sc, [], ls[0][0].action)
  {
    if k == 0 {
      g := AllMiss(rg, isRun, reliable, sc, ls[0][0].action, |ls|);
    } else {
      var g0 := AllContribute(rg, isRun, reliable, sc, ls, k - 1);
      g := Contributes(rg, isRun, reliable, sc, ls, k - 1, g0);
      forall i | k <= i < |ls| ensures Pending(g, i, sc, [], ls[0][0].action) {
        assert Pending(g0, i, sc, [], ls[0][0].action);
      }
    }
  }

  ghost predicate Serving(g: System, i: nat, sc: Scope, ls: seq<seq<EnvStep>>, n: nat)
    requires Staircase(ls) && n <= |ls|
  {
    && i < |g.attempts|
    && var s := g.attempts[i];
       s.scope == sc && !s.live && (n < |ls| ==> s.pc.Idle?)
       && |s.chain| == |s.outputs| && |s.outputs| == n && ServedLog(s) == Mixture(ls)[..n]
  }

  /** An attempt that is still served asks for the next recorded action. */
  lemma IsServed(rg: Regime, isRun: RunRelation, reliable: bool, sc: Scope, ls: seq<seq<EnvStep>>, n: nat, g: System, i: nat)
    returns (g': System)
    requires Family(rg, isRun, sc, ls) && n < |ls| && RunReaches(rg, isRun, reliable, g)
    requires RowsUpTo(g.store, sc, ls, |ls|) && Serving(g, i, sc, ls, n)
    ensures RunReaches(rg, isRun, reliable, g') && g'.store == g.store && Serving(g', i, sc, ls, n + 1)
    ensures |g'.attempts| == |g.attempts|
  {
    var s := g.attempts[i];
    assert RowAt(g.store, sc, ls, |ls|, n) && FamilyAt(rg, isRun, sc, ls, n);
    MixedChain(rg, isRun, sc, ls, s, n);
    g' := IsServedRow(rg, isRun, reliable, ls[n][n].action, ls[n][n].result, g, i);
    assert ServedLog(g'.attempts[i]) == ServedLog(s) + [ls[n][n]] == Mixture(ls)[..n + 1];
  }

  lemma IsServedRow(rg: Regime, isRun: RunRelation, reliable: bool, a: Action, v: StepResult, g: System, i: nat)
    returns (g': System)
    requires RunReaches(rg, isRun, reliable, g) && i < |g.attempts| && g.store.blocked == {}
    requires !g.attempts[i].live && g.attempts[i].pc.Idle?
    requires var k := Key(g.attempts[i].scope, g.attempts[i].chain + [a]); k in g.store.entries && g.store.entries[k] == v
    ensures RunReaches(rg, isRun, reliable, g') && g'.store == g.store && |g'.attempts| == |g.attempts|
    ensures var s, t := g.attempts[i], g'.attempts[i];
      && t.scope == s.scope && t.chain == s.chain + [a] && t.outputs == s.outputs + [v] && !t.live && (a.Run? ==> t.pc.Idle?)
  {
    g' := Step(rg, isRun, reliable, g, Do(i, Call(a), false));
    g' := Step(rg, isRun, reliable, g', Do(i, BlockedReply(false), false));
    g' := Step(rg, isRun, reliable, g', Do(i, EntryReply(Some(v)), false));
  }

  lemma MixedChain(rg: Regime, isRun: RunRelation, sc: Scope, ls: seq<seq<EnvStep>>, s: Attempt, n: nat)
    requires Family(rg, isRun, sc, ls) && n < |ls| && |s.chain| == |s.outputs| && |s.outputs| == n
    requires ServedLog(s) == Mixture(ls)[..n]
    ensures s.chain + [ls[n][n].action] == Actions(ls[n]) && (n < |ls| - 1 ==> ls[n][n].action.Run?)
  {
    forall j | 0 <= j < n ensures s.chain[j] == Actions(ls[n])[j] {
      assert ServedLog(s)[j] == ls[j][j];
      SameChain(rg, isRun, sc, ls, j, n);
    }
    assert FamilyAt(rg, isRun, sc, ls, n) && FamilyAt(rg, isRun, sc, ls, |ls| - 1);
    if n < |ls| - 1 { SameChain(rg, isRun, sc, ls, n, |ls| - 1); }
  }

  lemma {:induction false} ServesMixture(
    rg: Regime, isRun: RunRelation, reliable: bool, sc: Scope, ls: seq<seq<EnvStep>>, n: nat) returns (g: System)
    requires PrefixClosed(isRun) && Family(rg, isRun, sc, ls) && n <= |ls|
    ensures RunReaches(rg, isRun, reliable, g) && RowsUpTo(g.store, sc, ls, |ls|) && Serving(g, |ls|, sc, ls, n)
    ensures |g.attempts| == |ls| + 1
  {
    if n == 0 {
      g := AllContribute(rg, isRun, reliable, sc, ls, |ls|);
      g := Step(rg, isRun, reliable, g, Start(sc));
    } else {
      var g0 := ServesMixture(rg, isRun, reliable, sc, ls, n - 1);
      g := IsServed(rg, isRun, reliable, sc, ls, n - 1, g0, |ls|);
    }
  }

  /** The exact condition, with a reliable store as well as with one that fails open: whatever is served is a run
      of the environment if and only if its recordable runs can be mixed. */
  lemma ServesRunsIff(rg: Regime, isRun: RunRelation, reliable: bool)
    requires PrefixClosed(isRun)
    ensures AlwaysServesRuns(rg, isRun, reliable) <==> MixClosed(rg, isRun)
  {
    if MixClosed(rg, isRun) {
      forall g, i | RunReaches(rg, isRun, reliable, g) && 0 <= i < |g.attempts| ensures ServesARun(isRun, g.attempts[i]) {
        var ms :| RunSchedule(rg, isRun, reliable, Empty, ms) && RunOutcome(rg, isRun, reliable, Empty, ms) == g;
        ScheduleKeepsRunInv(rg, isRun, reliable, Empty, ms);
        ClosedServesRuns(rg, isRun, g.attempts[i]);
      }
    }
    if AlwaysServesRuns(rg, isRun, reliable) {
      forall sc, ls | Family(rg, isRun, sc, ls) ensures isRun(sc, Mixture(ls)) {
        var g := ServesMixture(rg, isRun, reliable, sc, ls, |ls|);
        assert ServesARun(isRun, g.attempts[|ls|]);
        assert Mixture(ls)[..|ls|] == Mixture(ls);
      }
    }
  }

  // ------------------------------------------------------------ an environment that is served no run

  /** An environment that settles everything once: all results of a run are equal. */
  predicate SameThroughout(sc: Scope, log: seq<EnvStep>) {
    forall k :: 0 <= k < |log| ==> log[k].result == log[0].result
  }

  /** Served by a reliable store, an attempt sees heads and then tails, which no run of that environment shows. */
  lemma ServedNoRun(rg: Regime, sc: Scope, a: RunAction, b: RunAction, heads: StepResult, tails: StepResult)
    returns (g: System)
    requires heads != tails && StepRecordable(rg, EnvStep(Run(a), heads))
    requires StepRecordable(rg, EnvStep(Run(a), tails)) && StepRecordable(rg, EnvStep(Run(b), tails))
    ensures PrefixClosed(SameThroughout) && RunReaches(rg, SameThroughout, true, g) && |g.attempts| == 3
    ensures var s := g.attempts[2];
      && s.scope == sc && !s.live && |s.outputs| <= |s.chain|
      && ServedLog(s) == [EnvStep(Run(a), heads), EnvStep(Run(b), tails)] && !SameThroughout(sc, ServedLog(s))
  {
    forall sc, log, e | SameThroughout(sc, log + [e]) ensures log == [] || SameThroughout(sc, log) {
      assert forall k :: 0 <= k < |log| ==> (log + [e])[k] == log[k];
    }
    var ls := [[EnvStep(Run(a), heads)], [EnvStep(Run(a), tails), EnvStep(Run(b), tails)]];
    assert Actions(ls[0]) == Actions(ls[1])[..1] && Actions(ls[1])[..2] == Actions(ls[1]);
    assert FamilyAt(rg, SameThroughout, sc, ls, 0) && FamilyAt(rg, SameThroughout, sc, ls, 1);
    g := ServesMixture(rg, SameThroughout, true, sc, ls, 2);
    assert Mixture(ls)[..2] == [ls[0][0], ls[1][1]];
    assert [ls[0][0], ls[1][1]][1].result != [ls[0][0], ls[1][1]][0].result;
  }
}
