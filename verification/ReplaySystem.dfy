/** Any number of replay attempts interleaved over one shared store
    (src/plugins/replay/step_cache.py over src/plugins/caching/store.py). */
module ReplaySystem {
  import opened EnvSteps
  import opened ReplayProtocol
  import opened ReplayProofs

  /** The two kinds of rows: recorded results, and the live-only markers (`_blocked_key`). The key texts
      of the two kinds never coincide (module ChainKeys). */
  datatype Store = Store(entries: map<Key, StepResult>, blocked: set<Key>)

  datatype System = System(store: Store, attempts: seq<Attempt>)

  /** A step of the system: a new attempt, or attempt `i` consuming one reply. `commit` says whether the
      write that was pending took effect: writes fail open, and a cancelled write may still land. */
  datatype Move = Start(scope: Scope) | Do(i: nat, event: Event, commit: bool)

  /** What an environment of this scope may return for the last action of `history`. */
  type EnvRelation = (Scope, seq<Action>, StepResult) -> bool

  /** The action prefix whose last action the env is executing. */
  function Executing(s: Attempt): seq<Action> {
    if s.pc.CatchUp? && s.pc.i < |s.replayed| then s.replayed[s.pc.i].key.chain else s.chain
  }

  /** `INSERT OR IGNORE` (first commit wins). */
  function Insert(m: map<Key, StepResult>, k: Key, v: StepResult): map<Key, StepResult> {
    if k in m then m else m[k := v]
  }

  function Commit(st: Store, s: Attempt): Store {
    match s.pc
    case WriteBlock(i) =>
      if i < |s.replayed| then st.(blocked := st.blocked + {s.replayed[i].key}) else st
    case Record(r) => st.(entries := Insert(st.entries, Key(s.scope, s.chain), r))
    case _ => st
  }

  /** The key of the row an attempt is reading. */
  function ReadKey(s: Attempt): Key {
    if s.pc.ReadDiagnostic? && s.pc.i < |s.replayed| then s.replayed[s.pc.i].key
    else Key(s.scope, s.chain)
  }

  /** A read that hits tells the truth; one that misses proves nothing unless the store is reliable. */
  predicate HonestReply(reliable: bool, st: Store, s: Attempt, e: Event) {
    match e
    case BlockedReply(found) =>
      (found ==> ReadKey(s) in st.blocked) && (reliable && !found ==> ReadKey(s) !in st.blocked)
    case EntryReply(Some(v)) => ReadKey(s) in st.entries && st.entries[ReadKey(s)] == v
    case EntryReply(None) => reliable ==> ReadKey(s) !in st.entries
    case _ => true
  }

  predicate Possible(rg: Regime, env: EnvRelation, reliable: bool, g: System, m: Move) {
    m.Do? ==>
      && m.i < |g.attempts| && Enabled(g.attempts[m.i], m.event)
      && HonestReply(reliable, g.store, g.attempts[m.i], m.event)
      && (m.event.EnvReply? ==>
            env(g.attempts[m.i].scope, Executing(g.attempts[m.i]), m.event.result) && m.event.elapsed >= 0.0)
      && (reliable && m.event.WriteReply? ==> m.commit)
  }

  function Apply(rg: Regime, g: System, m: Move): System
    requires m.Do? ==> m.i < |g.attempts| && Enabled(g.attempts[m.i], m.event)
  {
    match m
    case Start(scope) => g.(attempts := g.attempts + [Fresh(scope)])
    case Do(i, e, commit) =>
      var s := g.attempts[i];
      System(if commit && (e.WriteReply? || e.Raised?) then Commit(g.store, s) else g.store,
             g.attempts[i := Next(rg, s, e)])
  }

  ghost predicate Schedule(rg: Regime, env: EnvRelation, reliable: bool, g: System, ms: seq<Move>)
    decreases |ms|
  {
    ms == [] || (Possible(rg, env, reliable, g, ms[0])
                 && Schedule(rg, env, reliable, Apply(rg, g, ms[0]), ms[1..]))
  }

  ghost function Outcome(rg: Regime, env: EnvRelation, reliable: bool, g: System, ms: seq<Move>): System
    requires Schedule(rg, env, reliable, g, ms)
    decreases |ms|
  {
    if ms == [] then g else Outcome(rg, env, reliable, Apply(rg, g, ms[0]), ms[1..])
  }

  const Empty := System(Store(map[], {}), [])

  // ------------------------------------------------------------ the attempts' own invariant

  ghost predicate AllInv(rg: Regime, g: System) {
    forall i :: 0 <= i < |g.attempts| ==> AttemptInv(rg, g.attempts[i])
  }

  lemma ApplyKeepsAllInv(rg: Regime, env: EnvRelation, reliable: bool, g: System, m: Move)
    requires AllInv(rg, g) && Possible(rg, env, reliable, g, m)
    ensures AllInv(rg, Apply(rg, g, m))
  {
    if m.Do? { NextKeepsInv(rg, g.attempts[m.i], m.event); }
  }

  // ------------------------------------------------------------ 1. replay refines live execution

  /** Every stored row is a result the env may return for its chain. */
  ghost predicate StoreSound(env: EnvRelation, st: Store) {
    forall k :: k in st.entries ==> env(k.scope, k.chain, st.entries[k])
  }

  /** Every output, everything the env returned and the result about to be written is one the env may
      return at that point. */
  ghost predicate OutputsSound(env: EnvRelation, s: Attempt) {
    && |s.outputs| <= |s.chain| && |s.envLog| <= |s.chain|
    && (forall k :: 0 <= k < |s.envLog| ==> env(s.scope, s.chain[..k + 1], s.envLog[k].result))
    && (forall k :: 0 <= k < |s.outputs| ==> env(s.scope, s.chain[..k + 1], s.outputs[k]))
    && (s.pc.Record? ==> env(s.scope, s.chain, s.pc.result))
  }

  ghost predicate Sound(rg: Regime, env: EnvRelation, g: System) {
    && AllInv(rg, g) && StoreSound(env, g.store)
    && forall i :: 0 <= i < |g.attempts| ==> OutputsSound(env, g.attempts[i])
  }

  lemma DeliverKeepsSound(env: EnvRelation, s: Attempt, r: StepResult)
    requires OutputsSound(env, s) && |s.chain| == |s.outputs| + 1
    requires env(s.scope, s.chain, r)
    ensures OutputsSound(env, Deliver(s, r))
  {
    assert s.chain[..|s.chain|] == s.chain;
  }

  lemma ExecuteKeepsSound(rg: Regime, env: EnvRelation, s: Attempt, r: StepResult, elapsed: real)
    requires s.pc.Execute? && s.live && AttemptInv(rg, s) && OutputsSound(env, s) && env(s.scope, s.chain, r)
    ensures OutputsSound(env, AfterExecute(rg, s, r, elapsed))
  {
    var t := s.(envLog := s.envLog + [EnvStep(s.chain[|s.chain| - 1], r)]);
    assert |s.envLog| == |Actions(s.envLog)| == |s.chain| - 1;
    assert s.chain[..|s.chain|] == s.chain;
    DeliverKeepsSound(env, t, r);
    DeliverKeepsSound(env, t.(recordable := false), r);
  }

  lemma EnvReplyKeepsSound(rg: Regime, env: EnvRelation, s: Attempt, r: StepResult, elapsed: real)
    requires AttemptInv(rg, s) && Enabled(s, EnvReply(r, elapsed)) && OutputsSound(env, s)
    requires env(s.scope, Executing(s), r)
    ensures OutputsSound(env, Next(rg, s, EnvReply(r, elapsed)))
  {
    if s.pc.Execute? {
      ExecuteKeepsSound(rg, env, s, r, elapsed);
    } else {
      CatchUpKeepsSound(rg, env, s, s.pc.i, r);
    }
  }

  lemma CatchUpKeepsSound(rg: Regime, env: EnvRelation, s: Attempt, i: nat, r: StepResult)
    requires s.live && s.pc == CatchUp(i) && AttemptInv(rg, s) && i < |s.replayed| && OutputsSound(env, s)
    requires env(s.scope, Executing(s), r)
    ensures OutputsSound(env, AfterCatchUp(rg, s, i, r))
  {
    assert |s.envLog| == |Actions(s.envLog)| == i;
  }

  lemma NextKeepsSound(rg: Regime, env: EnvRelation, st: Store, s: Attempt, e: Event)
    requires AttemptInv(rg, s) && Enabled(s, e) && OutputsSound(env, s) && StoreSound(env, st)
    requires HonestReply(false, st, s, e)
    requires e.EnvReply? ==> env(s.scope, Executing(s), e.result)
    ensures OutputsSound(env, Next(rg, s, e))
  {
    match e
    case Call(a) =>
      assert forall k :: 0 <= k <= |s.chain| ==> (s.chain + [a])[..k] == s.chain[..k];
    case BlockedReply(_) =>
    case EntryReply(hit) =>
      if s.pc.AskEntry? && hit.Some? { DeliverKeepsSound(env, s, hit.value); }
    case EnvReply(r, elapsed) => EnvReplyKeepsSound(rg, env, s, r, elapsed);
    case WriteReply =>
      if s.pc.Record? { DeliverKeepsSound(env, s, s.pc.result); }
    case Raised =>
  }

  lemma ApplyKeepsSound(rg: Regime, env: EnvRelation, reliable: bool, g: System, m: Move)
    requires Sound(rg, env, g) && Possible(rg, env, reliable, g, m)
    ensures Sound(rg, env, Apply(rg, g, m))
  {
    ApplyKeepsAllInv(rg, env, reliable, g, m);
    if m.Do? {
      NextKeepsSound(rg, env, g.store, g.attempts[m.i], m.event);
    }
  }

  lemma {:induction false} ScheduleKeepsSound(
    rg: Regime, env: EnvRelation, reliable: bool, g: System, ms: seq<Move>)
    requires Sound(rg, env, g) && Schedule(rg, env, reliable, g, ms)
    ensures Sound(rg, env, Outcome(rg, env, reliable, g, ms))
    decreases |ms|
  {
    if ms != [] {
      ApplyKeepsSound(rg, env, reliable, g, ms[0]);
      ScheduleKeepsSound(rg, env, reliable, Apply(rg, g, ms[0]), ms[1..]);
    }
  }

  /** The results `LiveStepExecutor` can return for an action sequence: each is the env's own. */
  ghost predicate LiveResults(env: EnvRelation, scope: Scope, chain: seq<Action>, outs: seq<StepResult>) {
    |outs| <= |chain| && forall k :: 0 <= k < |outs| ==> env(scope, chain[..k + 1], outs[k])
  }

  /** Replay refines live execution: under any interleaving of attempts on one store, with reads that may
      miss and writes that may be dropped, every row is a true result of its chain and everything an
      attempt delivered is something the live executor could have delivered for the same actions. */
  lemma ReplayRefinesLive(rg: Regime, env: EnvRelation, reliable: bool, ms: seq<Move>)
    requires Schedule(rg, env, reliable, Empty, ms)
    ensures var g := Outcome(rg, env, reliable, Empty, ms);
      && (forall k :: k in g.store.entries ==> env(k.scope, k.chain, g.store.entries[k]))
      && forall i :: 0 <= i < |g.attempts| ==>
           LiveResults(env, g.attempts[i].scope, g.attempts[i].chain, g.attempts[i].outputs)
  {
    ScheduleKeepsSound(rg, env, reliable, Empty, ms);
  }

  /** Observations are a function of scope and action history, modulo the scrub: the framework's premise
      about environments. `raw` is one execution of each history. */
  ghost predicate DeterministicModuloScrub(
    rg: Regime, raw: (Scope, seq<Action>) -> StepResult, env: EnvRelation)
  {
    forall sc, h, r :: env(sc, h, r) <==>
      (|h| > 0 && ScrubResult(rg.scrubber, r, CommandOf(h[|h| - 1]))
                  == ScrubResult(rg.scrubber, raw(sc, h), CommandOf(h[|h| - 1])))
  }

  /** On such an env the episode loop, which scrubs every result it is given, sees from a replay attempt
      exactly what it would have seen from the live executor. */
  lemma ReplayEqualsLive(rg: Regime, raw: (Scope, seq<Action>) -> StepResult, env: EnvRelation,
                         reliable: bool, ms: seq<Move>, i: nat, live: seq<StepResult>)
    requires DeterministicModuloScrub(rg, raw, env) && Schedule(rg, env, reliable, Empty, ms)
    requires i < |Outcome(rg, env, reliable, Empty, ms).attempts|
    requires var s := Outcome(rg, env, reliable, Empty, ms).attempts[i];
      |live| == |s.outputs| && LiveResults(env, s.scope, s.chain, live)
    ensures var s := Outcome(rg, env, reliable, Empty, ms).attempts[i];
      forall k :: 0 <= k < |live| ==>
        ScrubResult(rg.scrubber, s.outputs[k], CommandOf(s.chain[k]))
          == ScrubResult(rg.scrubber, live[k], CommandOf(s.chain[k]))
  {
    ReplayRefinesLive(rg, env, reliable, ms);
    var s := Outcome(rg, env, reliable, Empty, ms).attempts[i];
    assert LiveResults(env, s.scope, s.chain, s.outputs);
    forall k | 0 <= k < |live|
      ensures ScrubResult(rg.scrubber, s.outputs[k], CommandOf(s.chain[k]))
                == ScrubResult(rg.scrubber, live[k], CommandOf(s.chain[k]))
    {
      var h := s.chain[..k + 1];
      assert env(s.scope, h, s.outputs[k]) && env(s.scope, h, live[k]);
      assert h[|h| - 1] == s.chain[k];
    }
  }

  // ------------------------------------------------------------ building schedules

  lemma {:induction false} ScheduleAppend(
    rg: Regime, env: EnvRelation, reliable: bool, g: System, ms: seq<Move>, ns: seq<Move>)
    requires Schedule(rg, env, reliable, g, ms)
    requires Schedule(rg, env, reliable, Outcome(rg, env, reliable, g, ms), ns)
    ensures Schedule(rg, env, reliable, g, ms + ns)
    ensures Outcome(rg, env, reliable, g, ms + ns)
              == Outcome(rg, env, reliable, Outcome(rg, env, reliable, g, ms), ns)
    decreases |ms|
  {
    if ms == [] {
      assert ms + ns == ns;
    } else {
      ScheduleAppend(rg, env, reliable, Apply(rg, g, ms[0]), ms[1..], ns);
      assert (ms + ns)[0] == ms[0] && (ms + ns)[1..] == ms[1..] + ns;
    }
  }

  /** Some schedule leads from the empty system to `g`. */
  ghost predicate Reaches(rg: Regime, env: EnvRelation, reliable: bool, g: System) {
    exists ms :: Schedule(rg, env, reliable, Empty, ms) && Outcome(rg, env, reliable, Empty, ms) == g
  }

  lemma ReachesSound(rg: Regime, env: EnvRelation, reliable: bool, g: System)
    requires Reaches(rg, env, reliable, g)
    ensures Sound(rg, env, g)
  {
    var ms :| Schedule(rg, env, reliable, Empty, ms) && Outcome(rg, env, reliable, Empty, ms) == g;
    ScheduleKeepsSound(rg, env, reliable, Empty, ms);
  }

  lemma ReachesEmpty(rg: Regime, env: EnvRelation, reliable: bool)
    ensures Reaches(rg, env, reliable, Empty)
  {
    assert Schedule(rg, env, reliable, Empty, []) && Outcome(rg, env, reliable, Empty, []) == Empty;
  }

  lemma Take(rg: Regime, env: EnvRelation, reliable: bool, g: System, m: Move) returns (g': System)
    requires Reaches(rg, env, reliable, g) && Possible(rg, env, reliable, g, m)
    ensures g' == Apply(rg, g, m) && Reaches(rg, env, reliable, g')
  {
    g' := Apply(rg, g, m);
    var ms :| Schedule(rg, env, reliable, Empty, ms) && Outcome(rg, env, reliable, Empty, ms) == g;
    assert [m][0] == m && [m][1..] == [];
    assert Schedule(rg, env, reliable, g', []);
    assert Outcome(rg, env, reliable, g', []) == g';
    assert Schedule(rg, env, reliable, g, [m]);
    ScheduleAppend(rg, env, reliable, Empty, ms, [m]);
  }
}
