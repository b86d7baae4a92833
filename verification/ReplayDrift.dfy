/** When can a deterministic environment drift? Exactly when some recordable observation changes its audit
    identity by being scrubbed a second time: the recorded side of the audit is scrubbed once and the live
    side twice (src/plugins/replay/step_cache.py:94, 184-185). */
module ReplayDrift {
  import opened EnvSteps
  import opened ReplayProtocol
  import opened ReplaySystem

  type RawEnv = (Scope, seq<Action>) -> StepResult

  /** Some elapsed time lets this result be recorded. */
  predicate CanRecord(rg: Regime, a: RunAction, r: StepResult) {
    && !rg.background(a.command)
    && r.output.exitCode != Some(COMMAND_TIMEOUT_EXIT_CODE)
    && (a.timeoutSec.Some? ==> a.timeoutSec.value >= 0.0)
  }

  /** A chain of run actions that can all be recorded. */
  ghost predicate Recordable(rg: Regime, raw: RawEnv, scope: Scope, h: seq<Action>) {
    forall j :: 0 <= j < |h| && h[j].Run? ==> CanRecord(rg, h[j].run, raw(scope, h[..j + 1]))
  }

  predicate OnlyRuns(h: seq<Action>) {
    forall j :: 0 <= j < |h| ==> h[j].Run?
  }

  function Truth(rg: Regime, raw: RawEnv, scope: Scope, h: seq<Action>): StepResult
    requires |h| > 0
  {
    ScrubResult(rg.scrubber, raw(scope, h), CommandOf(h[|h| - 1]))
  }

  ghost predicate Stable(rg: Regime, raw: RawEnv, scope: Scope, h: seq<Action>)
    requires |h| > 0
  {
    AuditStable(rg.scrubber, Truth(rg, raw, scope, h), CommandOf(h[|h| - 1]))
  }

  /** Some recordable chain ends in an observation whose audit identity a second scrub changes. */
  ghost predicate UnstableSomewhere(rg: Regime, raw: RawEnv) {
    exists scope, h :: |h| > 0 && OnlyRuns(h) && Recordable(rg, raw, scope, h) && !Stable(rg, raw, scope, h)
  }

  // ------------------------------------------------------------ drift implies instability

  ghost predicate RecordedOnly(rg: Regime, raw: RawEnv, st: Store) {
    forall k :: k in st.entries ==> |k.chain| > 0 && Recordable(rg, raw, k.scope, k.chain)
  }

  /** What the attempt carries is recordable: the served prefix, and the whole chain while it records. */
  ghost predicate CarriesRecordable(rg: Regime, raw: RawEnv, s: Attempt) {
    && (!s.pc.Ended? && |s.replayed| <= |s.chain| && (!s.live || s.replayed != []) ==>
          Recordable(rg, raw, s.scope, s.chain[..|s.replayed|]))
    && (s.live && s.recordable && s.pc.Idle? ==> Recordable(rg, raw, s.scope, s.chain))
    && (s.live && s.recordable && s.pc.Execute? && |s.chain| > 0 ==>
          Recordable(rg, raw, s.scope, s.chain[..|s.chain| - 1]))
    && (s.pc.Record? ==> Recordable(rg, raw, s.scope, s.chain))
  }

  ghost predicate DriftInvariant(rg: Regime, raw: RawEnv, env: EnvRelation, g: System) {
    && Sound(rg, env, g) && RecordedOnly(rg, raw, g.store)
    && forall i :: 0 <= i < |g.attempts| ==> CarriesRecordable(rg, raw, g.attempts[i])
  }

  lemma RecordableExtends(rg: Regime, raw: RawEnv, scope: Scope, h: seq<Action>)
    requires |h| > 0 && Recordable(rg, raw, scope, h[..|h| - 1])
    requires h[|h| - 1].Run? ==> CanRecord(rg, h[|h| - 1].run, raw(scope, h))
    ensures Recordable(rg, raw, scope, h)
  {
    var n := |h| - 1;
    forall j | 0 <= j < |h| && h[j].Run? ensures CanRecord(rg, h[j].run, raw(scope, h[..j + 1])) {
      if j < n { assert h[..n][j] == h[j] && h[..n][..j + 1] == h[..j + 1]; }
      else { assert h[..j + 1] == h; }
    }
  }

  lemma RecordablePrefix(rg: Regime, raw: RawEnv, scope: Scope, h: seq<Action>, n: nat)
    requires n <= |h| && Recordable(rg, raw, scope, h)
    ensures Recordable(rg, raw, scope, h[..n])
  {
    forall j | 0 <= j < n && h[j].Run? ensures CanRecord(rg, h[j].run, raw(scope, h[..n][..j + 1])) {
      assert h[..n][..j + 1] == h[..j + 1];
    }
  }

  lemma NotSkippedCanRecord(rg: Regime, raw: RawEnv, env: EnvRelation, s: Attempt, r: StepResult, elapsed: real)
    requires DeterministicModuloScrub(rg, raw, env) && elapsed >= 0.0
    requires |s.chain| > 0 && s.chain[|s.chain| - 1].Run? && env(s.scope, s.chain, r)
    requires !SkipRecording(rg, s.chain[|s.chain| - 1].run, r, elapsed)
    ensures CanRecord(rg, s.chain[|s.chain| - 1].run, raw(s.scope, s.chain))
  {
    var a := s.chain[|s.chain| - 1].run;
    var command := Some(a.command);
    assert ScrubResult(rg.scrubber, r, command) == ScrubResult(rg.scrubber, raw(s.scope, s.chain), command);
    assert r.output.exitCode == ScrubResult(rg.scrubber, r, command).output.exitCode;
  }

  lemma ServedCarries(rg: Regime, raw: RawEnv, st: Store, s: Attempt, v: StepResult)
    requires AttemptInv(rg, s) && s.pc.AskEntry? && CarriesRecordable(rg, raw, s) && RecordedOnly(rg, raw, st)
    requires Key(s.scope, s.chain) in st.entries
    ensures CarriesRecordable(rg, raw, Served(rg, s, v))
  {
    var s' := Served(rg, s, v);
    assert s.chain[..|s.chain|] == s.chain;
  }

  lemma CallCarries(rg: Regime, raw: RawEnv, s: Attempt, a: Action)
    requires AttemptInv(rg, s) && s.pc.Idle? && CarriesRecordable(rg, raw, s)
    ensures CarriesRecordable(rg, raw, Next(rg, s, Call(a)))
  {
    var s' := Next(rg, s, Call(a));
    assert s'.chain[..|s.chain|] == s.chain;
    assert s'.chain[..|s.replayed|] == s.chain[..|s.replayed|];
  }

  lemma ExecuteCarries(rg: Regime, raw: RawEnv, env: EnvRelation, s: Attempt, r: StepResult, elapsed: real)
    requires DeterministicModuloScrub(rg, raw, env) && elapsed >= 0.0
    requires AttemptInv(rg, s) && s.pc.Execute? && s.live && CarriesRecordable(rg, raw, s)
    requires env(s.scope, s.chain, r)
    ensures CarriesRecordable(rg, raw, AfterExecute(rg, s, r, elapsed))
  {
    var a := s.chain[|s.chain| - 1];
    if s.recordable && !(a.Run? && SkipRecording(rg, a.run, r, elapsed)) {
      if a.Run? { NotSkippedCanRecord(rg, raw, env, s, r, elapsed); }
      RecordableExtends(rg, raw, s.scope, s.chain);
    }
  }

  lemma NextCarries(rg: Regime, raw: RawEnv, env: EnvRelation, st: Store, s: Attempt, e: Event)
    requires DeterministicModuloScrub(rg, raw, env) && RecordedOnly(rg, raw, st)
    requires AttemptInv(rg, s) && Enabled(s, e) && CarriesRecordable(rg, raw, s)
    requires HonestReply(false, st, s, e)
    requires e.EnvReply? ==> env(s.scope, Executing(s), e.result) && e.elapsed >= 0.0
    ensures CarriesRecordable(rg, raw, Next(rg, s, e))
  {
    match e
    case Call(a) => CallCarries(rg, raw, s, a);
    case BlockedReply(_) => GoLiveCarries(rg, raw, s);
    case EntryReply(hit) =>
      if s.pc.AskEntry? {
        if hit.Some? { ServedCarries(rg, raw, st, s, hit.value); } else { GoLiveCarries(rg, raw, s); }
      }
    case EnvReply(r, elapsed) =>
      if s.pc.Execute? { ExecuteCarries(rg, raw, env, s, r, elapsed); }
      else { CatchUpCarries(rg, raw, s, s.pc.i, r); }
    case WriteReply =>
    case Raised =>
  }

  lemma GoLiveCarries(rg: Regime, raw: RawEnv, s: Attempt)
    requires AttemptInv(rg, s) && (s.pc.AskBlocked? || s.pc.AskEntry?) && CarriesRecordable(rg, raw, s)
    ensures CarriesRecordable(rg, raw, GoLive(s)) && CarriesRecordable(rg, raw, GoLive(s.(recordable := false)))
    ensures CarriesRecordable(rg, raw, s.(pc := AskEntry))
  {
  }

  lemma CatchUpCarries(rg: Regime, raw: RawEnv, s: Attempt, i: nat, r: StepResult)
    requires AttemptInv(rg, s) && s.pc == CatchUp(i) && CarriesRecordable(rg, raw, s)
    ensures CarriesRecordable(rg, raw, AfterCatchUp(rg, s, i, r))
  {
  }

  lemma ApplyKeepsDriftInvariant(rg: Regime, raw: RawEnv, env: EnvRelation, reliable: bool, g: System, m: Move)
    requires DeterministicModuloScrub(rg, raw, env)
    requires DriftInvariant(rg, raw, env, g) && Possible(rg, env, reliable, g, m)
    ensures DriftInvariant(rg, raw, env, Apply(rg, g, m))
  {
    ApplyKeepsSound(rg, env, reliable, g, m);
    if m.Do? { NextCarries(rg, raw, env, g.store, g.attempts[m.i], m.event); }
  }

  lemma {:induction false} ScheduleKeepsDriftInvariant(
    rg: Regime, raw: RawEnv, env: EnvRelation, reliable: bool, g: System, ms: seq<Move>)
    requires DeterministicModuloScrub(rg, raw, env)
    requires DriftInvariant(rg, raw, env, g) && Schedule(rg, env, reliable, g, ms)
    ensures DriftInvariant(rg, raw, env, Outcome(rg, env, reliable, g, ms))
    decreases |ms|
  {
    if ms != [] {
      ApplyKeepsDriftInvariant(rg, raw, env, reliable, g, ms[0]);
      ScheduleKeepsDriftInvariant(rg, raw, env, reliable, Apply(rg, g, ms[0]), ms[1..]);
    }
  }

  /** At a drift, the recorded result and the live one are two executions of one history, so the audit can
      only tell them apart because a second scrub changes the observation. */
  lemma MismatchIsUnstable(rg: Regime, raw: RawEnv, env: EnvRelation, s: Attempt, i: nat)
    requires DeterministicModuloScrub(rg, raw, env)
    requires DriftInv(rg, s, i) && OutputsSound(env, s)
    ensures !Stable(rg, raw, s.scope, s.chain[..i + 1])
  {
    var h := s.chain[..i + 1];
    var c := CommandOf(h[i]);
    assert |s.envLog| == |Actions(s.envLog)|;
    assert h[|h| - 1] == s.chain[i] == Run(s.replayed[i].action);
    assert env(s.scope, h, s.outputs[i]) && env(s.scope, h, s.envLog[i].result);
    assert ScrubResult(rg.scrubber, s.outputs[i], c) == Truth(rg, raw, s.scope, h)
        == ScrubResult(rg.scrubber, s.envLog[i].result, c);
  }

  lemma MismatchWasRecordable(rg: Regime, raw: RawEnv, s: Attempt, k: nat)
    requires AttemptInv(rg, s) && s.pc == WriteBlock(k) && CarriesRecordable(rg, raw, s)
    ensures DriftInv(rg, s, k) && k < |s.chain|
    ensures OnlyRuns(s.chain[..k + 1]) && Recordable(rg, raw, s.scope, s.chain[..k + 1])
  {
    var p := s.chain[..|s.replayed|];
    assert p[..k + 1] == s.chain[..k + 1];
    RecordablePrefix(rg, raw, s.scope, p, k + 1);
  }

  lemma MemberFacts(rg: Regime, raw: RawEnv, env: EnvRelation, g: System, i: nat)
    requires DriftInvariant(rg, raw, env, g) && i < |g.attempts|
    ensures AttemptInv(rg, g.attempts[i]) && OutputsSound(env, g.attempts[i]) && CarriesRecordable(rg, raw, g.attempts[i])
  {
  }

  lemma DriftingIsUnstable(rg: Regime, raw: RawEnv, env: EnvRelation, s: Attempt, k: nat)
    requires DeterministicModuloScrub(rg, raw, env) && AttemptInv(rg, s) && s.pc == WriteBlock(k)
    requires OutputsSound(env, s) && CarriesRecordable(rg, raw, s)
    ensures UnstableSomewhere(rg, raw)
  {
    MismatchWasRecordable(rg, raw, s, k);
    MismatchIsUnstable(rg, raw, env, s, k);
    UnstableAt(rg, raw, s.scope, s.chain[..k + 1]);
  }

  lemma UnstableAt(rg: Regime, raw: RawEnv, scope: Scope, h: seq<Action>)
    requires |h| > 0 && OnlyRuns(h) && Recordable(rg, raw, scope, h) && !Stable(rg, raw, scope, h)
    ensures UnstableSomewhere(rg, raw)
  {
  }

  /** No schedule of a deterministic env whose recordable observations are audit-stable ever drifts. */
  lemma StableNeverDrifts(rg: Regime, raw: RawEnv, env: EnvRelation, reliable: bool, ms: seq<Move>, i: nat)
    requires DeterministicModuloScrub(rg, raw, env) && Schedule(rg, env, reliable, Empty, ms)
    requires i < |Outcome(rg, env, reliable, Empty, ms).attempts|
    requires Outcome(rg, env, reliable, Empty, ms).attempts[i].pc.WriteBlock?
    ensures UnstableSomewhere(rg, raw)
  {
    ScheduleKeepsDriftInvariant(rg, raw, env, reliable, Empty, ms);
    var g := Outcome(rg, env, reliable, Empty, ms);
    MemberFacts(rg, raw, env, g, i);
    DriftingIsUnstable(rg, raw, env, g.attempts[i], g.attempts[i].pc.i);
  }

  // ------------------------------------------------------------ instability implies a drift

  /** The rows after the first `n` actions of `h` have been recorded, and nothing else has. */
  function Rows(raw: RawEnv, scope: Scope, h: seq<Action>, n: nat): map<Key, StepResult>
    requires n <= |h|
  {
    if n == 0 then map[] else Rows(raw, scope, h, n - 1)[Key(scope, h[..n]) := raw(scope, h[..n])]
  }

  lemma {:induction false} RowsHold(raw: RawEnv, scope: Scope, h: seq<Action>, n: nat)
    requires n <= |h|
    ensures forall k :: k in Rows(raw, scope, h, n) <==>
              k.scope == scope && 0 < |k.chain| <= n && k.chain == h[..|k.chain|]
    ensures forall k :: k in Rows(raw, scope, h, n) ==> Rows(raw, scope, h, n)[k] == raw(scope, k.chain)
  {
    if n > 0 {
      RowsHold(raw, scope, h, n - 1);
    }
  }

  /** A recording attempt that has executed the first `n` actions of `h`. */
  ghost predicate Recorder(s: Attempt, scope: Scope, h: seq<Action>, n: nat)
    requires n <= |h|
  {
    && s.scope == scope && s.chain == h[..n] && s.replayed == [] && s.recordable && s.pc.Idle?
    && (s.live <==> n > 0)
  }

  /** A serving attempt that has been served the first `n` actions of `h` as `raw` gave them. */
  ghost predicate Server(rg: Regime, raw: RawEnv, s: Attempt, scope: Scope, h: seq<Action>, n: nat)
    requires n <= |h|
  {
    && s.scope == scope && s.chain == h[..n] && !s.live && s.pc.Idle? && |s.replayed| == n
    && forall j :: 0 <= j < n ==> ReplaysRow(rg, raw, s.replayed[j], scope, h[..j + 1])
  }

  ghost predicate ReplaysRow(rg: Regime, raw: RawEnv, p: Replayed, scope: Scope, h: seq<Action>) {
    && |h| > 0 && Run(p.action) == h[|h| - 1] && p.key == Key(scope, h)
    && p.recordedHash == CanonResult(rg.scrubber, Truth(rg, raw, scope, h))
  }

  lemma EnvGivesRaw(rg: Regime, raw: RawEnv, env: EnvRelation, scope: Scope, h: seq<Action>)
    requires DeterministicModuloScrub(rg, raw, env) && |h| > 0
    ensures env(scope, h, raw(scope, h))
  {
  }

  ghost predicate Recording(raw: RawEnv, g: System, scope: Scope, h: seq<Action>, n: nat)
    requires n <= |h|
  {
    && |g.attempts| == 1 && Recorder(g.attempts[0], scope, h, n)
    && g.store == Store(Rows(raw, scope, h, n), {})
  }

  /** The recorder asks for action `n`, going live if it is the first. */
  lemma AskLive(rg: Regime, raw: RawEnv, env: EnvRelation, scope: Scope, h: seq<Action>, n: nat, g: System)
    returns (g': System)
    requires n < |h| && Reaches(rg, env, true, g) && Recording(raw, g, scope, h, n)
    ensures Reaches(rg, env, true, g') && |g'.attempts| == 1 && g'.store == g.store
    ensures var s := g'.attempts[0];
      s.scope == scope && s.chain == h[..n + 1] && s.replayed == [] && s.recordable && s.live && s.pc.Execute?
  {
    RowsHold(raw, scope, h, n);
    assert h[..n] + [h[n]] == h[..n + 1];
    g' := Take(rg, env, true, g, Do(0, Call(h[n]), false));
    if n == 0 {
      g' := Take(rg, env, true, g', Do(0, BlockedReply(false), false));
      g' := Take(rg, env, true, g', Do(0, EntryReply(None), false));
    }
  }

  lemma RecordOne(rg: Regime, raw: RawEnv, env: EnvRelation, scope: Scope, h: seq<Action>, n: nat, g: System)
    returns (g': System)
    requires DeterministicModuloScrub(rg, raw, env)
    requires n < |h| && OnlyRuns(h) && Recordable(rg, raw, scope, h)
    requires Reaches(rg, env, true, g) && Recording(raw, g, scope, h, n)
    ensures Reaches(rg, env, true, g') && Recording(raw, g', scope, h, n + 1)
  {
    RowsHold(raw, scope, h, n);
    EnvGivesRaw(rg, raw, env, scope, h[..n + 1]);
    g' := AskLive(rg, raw, env, scope, h, n, g);
    var r := raw(scope, h[..n + 1]);
    assert CanRecord(rg, h[n].run, r);
    assert !SkipRecording(rg, h[n].run, r, 0.0);
    g' := Take(rg, env, true, g', Do(0, EnvReply(r, 0.0), false));
    assert g'.attempts[0].pc == Record(r);
    g' := Take(rg, env, true, g', Do(0, WriteReply, true));
  }

  lemma {:induction false} RecordAll(rg: Regime, raw: RawEnv, env: EnvRelation, scope: Scope, h: seq<Action>,
                                     n: nat) returns (g: System)
    requires DeterministicModuloScrub(rg, raw, env)
    requires n <= |h| && OnlyRuns(h) && Recordable(rg, raw, scope, h)
    ensures Reaches(rg, env, true, g) && Recording(raw, g, scope, h, n)
    decreases n
  {
    if n == 0 {
      ReachesEmpty(rg, env, true);
      g := Take(rg, env, true, Empty, Start(scope));
    } else {
      g := RecordAll(rg, raw, env, scope, h, n - 1);
      g := RecordOne(rg, raw, env, scope, h, n - 1, g);
    }
  }

  ghost predicate Serving(rg: Regime, raw: RawEnv, g: System, scope: Scope, h: seq<Action>, n: nat)
    requires n <= |h|
  {
    && |g.attempts| == 2 && Server(rg, raw, g.attempts[1], scope, h, n)
    && g.store == Store(Rows(raw, scope, h, |h|), {})
  }

  lemma ServeOne(rg: Regime, raw: RawEnv, env: EnvRelation, scope: Scope, h: seq<Action>, n: nat, g: System)
    returns (g': System)
    requires n < |h| && OnlyRuns(h) && Reaches(rg, env, true, g) && Serving(rg, raw, g, scope, h, n)
    ensures Reaches(rg, env, true, g') && Serving(rg, raw, g', scope, h, n + 1)
  {
    RowsHold(raw, scope, h, |h|);
    var x := h[..n + 1];
    assert h[..n] + [h[n]] == x;
    g' := Take(rg, env, true, g, Do(1, Call(h[n]), false));
    g' := Take(rg, env, true, g', Do(1, BlockedReply(false), false));
    assert x == h[..|x|] && Key(scope, x) in Rows(raw, scope, h, |h|);
    var s := g'.attempts[1];
    assert s.chain == x && s.pc == AskEntry;
    g' := Take(rg, env, true, g', Do(1, EntryReply(Some(raw(scope, x))), false));
    ServedRow(rg, raw, s, scope, h, n);
  }

  lemma ServedRow(rg: Regime, raw: RawEnv, s: Attempt, scope: Scope, h: seq<Action>, n: nat)
    requires n < |h| && OnlyRuns(h) && s.scope == scope && s.chain == h[..n + 1]
    requires Server(rg, raw, s.(chain := h[..n], pc := Idle), scope, h, n)
    ensures Server(rg, raw, Served(rg, s, raw(scope, h[..n + 1])), scope, h, n + 1)
  {
    var x := h[..n + 1];
    assert x[|x| - 1] == h[n];
    var s' := Served(rg, s, raw(scope, x));
    assert ReplaysRow(rg, raw, s'.replayed[n], scope, x);
  }

  lemma {:induction false} ServeAll(rg: Regime, raw: RawEnv, env: EnvRelation, scope: Scope, h: seq<Action>,
                                    n: nat) returns (g: System)
    requires DeterministicModuloScrub(rg, raw, env)
    requires n <= |h| && OnlyRuns(h) && Recordable(rg, raw, scope, h)
    ensures Reaches(rg, env, true, g) && Serving(rg, raw, g, scope, h, n)
    decreases n
  {
    if n == 0 {
      g := RecordAll(rg, raw, env, scope, h, |h|);
      g := Take(rg, env, true, g, Start(scope));
    } else {
      g := ServeAll(rg, raw, env, scope, h, n - 1);
      g := ServeOne(rg, raw, env, scope, h, n - 1, g);
    }
  }

  /** Catching up over `h` from action `i` on: it meets a mismatch no later than the last action. */
  ghost predicate CatchingUp(rg: Regime, raw: RawEnv, s: Attempt, scope: Scope, h: seq<Action>, i: nat) {
    && s.scope == scope && s.live && s.pc == CatchUp(i) && i < |h| == |s.replayed| && s.chain != []
    && forall j :: 0 <= j < |h| ==> ReplaysRow(rg, raw, s.replayed[j], scope, h[..j + 1])
  }

  lemma {:induction false} CatchUpDrifts(
    rg: Regime, raw: RawEnv, env: EnvRelation, scope: Scope, h: seq<Action>, i: nat, g: System)
    returns (g': System)
    requires DeterministicModuloScrub(rg, raw, env) && |h| > 0 && !Stable(rg, raw, scope, h)
    requires Reaches(rg, env, true, g) && |g.attempts| == 2 && CatchingUp(rg, raw, g.attempts[1], scope, h, i)
    ensures Reaches(rg, env, true, g') && |g'.attempts| == 2 && g'.attempts[1].pc.WriteBlock?
    decreases |h| - i
  {
    var s := g.attempts[1];
    var x := h[..i + 1];
    assert ReplaysRow(rg, raw, s.replayed[i], scope, x);
    EnvGivesRaw(rg, raw, env, scope, x);
    g' := Take(rg, env, true, g, Do(1, EnvReply(raw(scope, x), 0.0), false));
    if i + 1 == |h| { assert x == h; }
    if Matches(rg, s.replayed[i], raw(scope, x)) {
      g' := CatchUpDrifts(rg, raw, env, scope, h, i + 1, g');
    }
  }

  /** Having been served all of `h`, the attempt submits: the verify row is missing, so it goes live. */
  lemma SubmitGoesLive(rg: Regime, raw: RawEnv, env: EnvRelation, scope: Scope, h: seq<Action>, g: System)
    returns (g': System)
    requires |h| > 0 && OnlyRuns(h) && Reaches(rg, env, true, g) && Serving(rg, raw, g, scope, h, |h|)
    ensures Reaches(rg, env, true, g') && |g'.attempts| == 2 && CatchingUp(rg, raw, g'.attempts[1], scope, h, 0)
  {
    assert h[..|h|] == h;
    RowsHold(raw, scope, h, |h|);
    g' := Take(rg, env, true, g, Do(1, Call(Verify), false));
    g' := Take(rg, env, true, g', Do(1, BlockedReply(false), false));
    assert Key(scope, h + [Verify]) !in Rows(raw, scope, h, |h|);
    g' := Take(rg, env, true, g', Do(1, EntryReply(None), false));
  }

  /** An unstable recordable observation makes some schedule drift, even on a reliable store: one attempt
      records the chain, a second is served it and then submits. */
  lemma UnstableDrifts(rg: Regime, raw: RawEnv, env: EnvRelation) returns (g: System)
    requires DeterministicModuloScrub(rg, raw, env) && UnstableSomewhere(rg, raw)
    ensures Reaches(rg, env, true, g) && |g.attempts| == 2 && g.attempts[1].pc.WriteBlock?
  {
    var scope, h :| |h| > 0 && OnlyRuns(h) && Recordable(rg, raw, scope, h) && !Stable(rg, raw, scope, h);
    g := ServeAll(rg, raw, env, scope, h, |h|);
    g := SubmitGoesLive(rg, raw, env, scope, h, g);
    g := CatchUpDrifts(rg, raw, env, scope, h, 0, g);
  }

  ghost predicate SomeScheduleDrifts(rg: Regime, env: EnvRelation) {
    exists g, i: nat :: Reaches(rg, env, true, g) && i < |g.attempts| && g.attempts[i].pc.WriteBlock?
  }

  /** The exact condition: on a deterministic environment some interleaving drifts if and only if some
      recordable observation is not audit-stable. */
  lemma DriftIffUnstable(rg: Regime, raw: RawEnv, env: EnvRelation)
    requires DeterministicModuloScrub(rg, raw, env)
    ensures SomeScheduleDrifts(rg, env) <==> UnstableSomewhere(rg, raw)
  {
    if SomeScheduleDrifts(rg, env) {
      var g, i: nat :| Reaches(rg, env, true, g) && i < |g.attempts| && g.attempts[i].pc.WriteBlock?;
      var ms :| Schedule(rg, env, true, Empty, ms) && Outcome(rg, env, true, Empty, ms) == g;
      StableNeverDrifts(rg, raw, env, true, ms, i);
    }
    if UnstableSomewhere(rg, raw) {
      var g := UnstableDrifts(rg, raw, env);
    }
  }
}
