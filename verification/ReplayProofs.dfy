/** What one attempt guarantees whatever the env returns and whatever the store replies. */
module ReplayProofs {
  import opened EnvSteps
  import opened ReplayProtocol

  // ------------------------------------------------------------ one reply at a time

  lemma ServedKeepsInv(rg: Regime, s: Attempt, v: StepResult)
    requires s.pc.AskEntry? && !s.live && AttemptInv(rg, s)
    ensures AttemptInv(rg, Served(rg, s, v))
  {
    var s' := Served(rg, s, v);
    assert s.chain[..|s.chain|] == s.chain;
  }

  lemma GoLiveKeepsInv(rg: Regime, s: Attempt)
    requires !s.live && ServingInv(rg, s) && (s.pc.AskEntry? || s.pc.AskBlocked?)
    ensures AttemptInv(rg, GoLive(s))
  {
    assert Actions(s.envLog) == s.chain[..0];
  }

  lemma AppendStep(s: Attempt, n: nat, r: StepResult)
    requires ExecutedPrefix(s, n) && n < |s.chain|
    ensures ExecutedPrefix(s.(envLog := s.envLog + [EnvStep(s.chain[n], r)]), n + 1)
  {
    var log := s.envLog + [EnvStep(s.chain[n], r)];
    assert |s.envLog| == |Actions(s.envLog)| == n;
    assert Actions(log) == Actions(s.envLog) + [s.chain[n]] == s.chain[..n] + [s.chain[n]] == s.chain[..n + 1];
  }

  lemma CatchUpKeepsInv(rg: Regime, s: Attempt, i: nat, r: StepResult)
    requires s.live && CatchingInv(rg, s, i)
    ensures AttemptInv(rg, AfterCatchUp(rg, s, i, r))
  {
    var s' := AfterCatchUp(rg, s, i, r);
    assert |s.envLog| == |Actions(s.envLog)| == i;
    AppendStep(s, i, r);
    assert s'.envLog == s.envLog + [EnvStep(s.chain[i], r)];
    assert ExecutedPrefix(s', i + 1);
    forall k: nat | k < i ensures Agrees(rg, s', k) {
      assert Agrees(rg, s, k);
    }
    if Matches(rg, s.replayed[i], r) {
      HashesCompare(rg.scrubber, s.outputs[i], r, CommandOf(s.chain[i]));
      assert Agrees(rg, s', i);
      if i + 1 == |s.replayed| {
        assert LiveInv(rg, s', |s'.chain| - 1, |s'.chain| - 1);
      }
    }
  }

  lemma DeliverKeepsInv(rg: Regime, s: Attempt, r: StepResult)
    requires s.live && |s.chain| > 0 && LiveInv(rg, s, |s.chain|, |s.chain| - 1)
    requires RunPrefix(s.chain, |s.chain| - 1) && r == s.envLog[|s.chain| - 1].result
    ensures AttemptInv(rg, Deliver(s, r))
  {
    var n := |s.chain| - 1;
    var s' := Deliver(s, r);
    forall k: nat | k < n ensures Agrees(rg, s', k) {
      assert Agrees(rg, s, k);
    }
    assert Agrees(rg, s', n);
    assert AgreesUpTo(rg, s', |s'.chain|);
  }

  lemma ExecuteKeepsInv(rg: Regime, s: Attempt, r: StepResult, elapsed: real)
    requires s.live && s.pc.Execute? && AttemptInv(rg, s)
    ensures AttemptInv(rg, AfterExecute(rg, s, r, elapsed))
  {
    var n := |s.chain| - 1;
    var t := s.(envLog := s.envLog + [EnvStep(s.chain[n], r)]);
    assert |s.envLog| == |Actions(s.envLog)| == n;
    AppendStep(s, n, r);
    forall k: nat | k < n ensures Agrees(rg, t, k) {
      assert Agrees(rg, s, k);
    }
    assert LiveInv(rg, t, n + 1, n);
    DeliverKeepsInv(rg, t, r);
    var t' := t.(recordable := false);
    assert LiveInv(rg, t', n + 1, n) by {
      forall k: nat | k < n ensures Agrees(rg, t', k) { assert Agrees(rg, t, k); }
    }
    DeliverKeepsInv(rg, t', r);
    var p := t.(pc := Record(r));
    assert LiveInv(rg, p, n + 1, n) by {
      forall k: nat | k < n ensures Agrees(rg, p, k) { assert Agrees(rg, t, k); }
    }
  }

  lemma RaisedKeepsInv(rg: Regime, s: Attempt)
    requires AttemptInv(rg, s) && Enabled(s, Raised)
    ensures AttemptInv(rg, s.(pc := Ended(Aborted)))
  {
    if s.live { assert |s.envLog| == |Actions(s.envLog)|; }
  }

  /** The two steps that report a drift keep what was known of the env log. */
  lemma DriftReportKeepsInv(rg: Regime, s: Attempt, pc: Pc, i: nat)
    requires s.live && DriftInv(rg, s, i)
    requires pc == ReadDiagnostic(i) || pc == Ended(Drifted(i + 1)) || pc == Ended(Lost(i + 1))
    ensures AttemptInv(rg, s.(pc := pc))
  {
    forall k: nat | k < i ensures Agrees(rg, s.(pc := pc), k) { assert Agrees(rg, s, k); }
    assert DriftInv(rg, s.(pc := pc), i);
  }

  lemma BlockedReplyKeepsInv(rg: Regime, s: Attempt, found: bool)
    requires s.pc.AskBlocked? && AttemptInv(rg, s) && Enabled(s, BlockedReply(found))
    ensures AttemptInv(rg, Next(rg, s, BlockedReply(found)))
  {
    GoLiveKeepsInv(rg, s.(recordable := false));
  }

  lemma LiveCallKeepsInv(rg: Regime, s: Attempt, a: Action)
    requires s.pc.Idle? && s.live && AttemptInv(rg, s)
    ensures AttemptInv(rg, Next(rg, s, Call(a)))
  {
    var s', n := Next(rg, s, Call(a)), |s.chain|;
    assert forall k :: 0 <= k <= n ==> s'.chain[..k] == s.chain[..k];
    forall k: nat | k < n ensures Agrees(rg, s', k) { assert Agrees(rg, s, k); }
    assert LiveInv(rg, s', n, n);
  }

  lemma CallKeepsInv(rg: Regime, s: Attempt, a: Action)
    requires s.pc.Idle? && AttemptInv(rg, s)
    ensures AttemptInv(rg, Next(rg, s, Call(a)))
  {
    if s.live {
      LiveCallKeepsInv(rg, s, a);
    } else {
      var s' := Next(rg, s, Call(a));
      assert forall k :: 0 <= k <= |s.chain| ==> s'.chain[..k] == s.chain[..k];
    }
  }

  lemma ReadReplyKeepsInv(rg: Regime, s: Attempt, hit: Option<StepResult>)
    requires AttemptInv(rg, s) && Enabled(s, EntryReply(hit))
    ensures AttemptInv(rg, Next(rg, s, EntryReply(hit)))
  {
    if s.pc.ReadDiagnostic? {
      DriftReportKeepsInv(rg, s, Next(rg, s, EntryReply(hit)).pc, s.pc.i);
    } else if hit.Some? {
      ServedKeepsInv(rg, s, hit.value);
    } else {
      GoLiveKeepsInv(rg, s);
    }
  }

  lemma EnvReplyKeepsInv(rg: Regime, s: Attempt, r: StepResult, elapsed: real)
    requires AttemptInv(rg, s) && Enabled(s, EnvReply(r, elapsed))
    ensures AttemptInv(rg, Next(rg, s, EnvReply(r, elapsed)))
  {
    if s.pc.CatchUp? {
      CatchUpKeepsInv(rg, s, s.pc.i, r);
    } else {
      ExecuteKeepsInv(rg, s, r, elapsed);
    }
  }

  lemma WriteReplyKeepsInv(rg: Regime, s: Attempt)
    requires AttemptInv(rg, s) && Enabled(s, WriteReply)
    ensures AttemptInv(rg, Next(rg, s, WriteReply))
  {
    if s.pc.WriteBlock? {
      DriftReportKeepsInv(rg, s, ReadDiagnostic(s.pc.i), s.pc.i);
    } else {
      DeliverKeepsInv(rg, s, s.pc.result);
    }
  }

  lemma NextKeepsInv(rg: Regime, s: Attempt, e: Event)
    requires AttemptInv(rg, s) && Enabled(s, e)
    ensures AttemptInv(rg, Next(rg, s, e))
  {
    match e
    case Call(a) => CallKeepsInv(rg, s, a);
    case BlockedReply(found) => BlockedReplyKeepsInv(rg, s, found);
    case EntryReply(hit) => ReadReplyKeepsInv(rg, s, hit);
    case EnvReply(r, elapsed) => EnvReplyKeepsInv(rg, s, r, elapsed);
    case WriteReply => WriteReplyKeepsInv(rg, s);
    case Raised => RaisedKeepsInv(rg, s);
  }

  // ------------------------------------------------------------ whole attempts

  lemma {:induction false} RunKeepsInv(rg: Regime, s: Attempt, es: seq<Event>)
    requires AttemptInv(rg, s) && Feasible(rg, s, es)
    ensures AttemptInv(rg, After(rg, s, es))
    decreases |es|
  {
    if es != [] {
      NextKeepsInv(rg, s, es[0]);
      RunKeepsInv(rg, Next(rg, s, es[0]), es[1..]);
    }
  }

  /** Whatever the store replied and whatever the env returned so far: when a new action is about to run
      live, the env has executed exactly the earlier actions, in order, once each, and every output the
      caller already holds is the env's own result or was reproduced by it under the audit hash. */
  lemma NewActionRunsInChainState(rg: Regime, scope: Scope, es: seq<Event>)
    requires Feasible(rg, Fresh(scope), es)
    ensures var s := After(rg, Fresh(scope), es);
      s.pc.Execute? ==>
        && |s.chain| > 0 && |s.outputs| == |s.chain| - 1 == |s.envLog|
        && Actions(s.envLog) == s.chain[..|s.chain| - 1]
        && forall k: nat :: k < |s.outputs| ==> Agrees(rg, s, k)
  {
    RunKeepsInv(rg, Fresh(scope), es);
    var s := After(rg, Fresh(scope), es);
    assert |s.envLog| == |Actions(s.envLog)|;
  }

  /** Before the first live action nothing at all has reached the env. */
  lemma ServingNeverTouchesTheEnv(rg: Regime, scope: Scope, es: seq<Event>)
    requires Feasible(rg, Fresh(scope), es)
    ensures var s := After(rg, Fresh(scope), es); !s.live ==> s.envLog == []
  {
    RunKeepsInv(rg, Fresh(scope), es);
  }

  /** The first `n - 1` served actions were reproduced and action `n` was not; the env has executed
      exactly the actions up to it. */
  ghost predicate FirstMismatch(rg: Regime, s: Attempt, n: nat) {
    && 0 < n <= |s.outputs| == |s.chain| - 1 && n == |s.envLog|
    && Actions(s.envLog) == s.chain[..n]
    && (forall k: nat :: k < n - 1 ==> Agrees(rg, s, k))
    && !Reproduces(rg.scrubber, s.outputs[n - 1], s.envLog[n - 1].result, CommandOf(s.chain[n - 1]))
  }

  lemma DriftIsFirstMismatch(rg: Regime, s: Attempt, i: nat)
    requires DriftInv(rg, s, i)
    ensures FirstMismatch(rg, s, i + 1)
  {
    assert |s.envLog| == |Actions(s.envLog)|;
    assert s.chain[i] == Run(s.replayed[i].action);
    HashesCompare(rg.scrubber, s.outputs[i], s.envLog[i].result, CommandOf(s.chain[i]));
  }

  lemma EndedDriftIsFirstMismatch(rg: Regime, s: Attempt, n: nat)
    requires AttemptInv(rg, s) && (s.pc == Ended(Drifted(n)) || s.pc == Ended(Lost(n)))
    ensures FirstMismatch(rg, s, n)
  {
    DriftIsFirstMismatch(rg, s, n - 1);
  }

  /** A drift -- also one whose diagnostic read missed -- names the first action that was not reproduced. */
  lemma DriftNamesFirstMismatch(rg: Regime, scope: Scope, es: seq<Event>, n: nat)
    requires Feasible(rg, Fresh(scope), es)
    requires After(rg, Fresh(scope), es).pc in {Ended(Drifted(n)), Ended(Lost(n))}
    ensures FirstMismatch(rg, After(rg, Fresh(scope), es), n)
  {
    RunKeepsInv(rg, Fresh(scope), es);
    EndedDriftIsFirstMismatch(rg, After(rg, Fresh(scope), es), n);
  }
}
