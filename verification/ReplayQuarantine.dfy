/** With a reliable store: recorded chains are prefix-closed, every drift leaves its key blocked, and a
    blocked chain is quarantined for every attempt that starts afterwards
    (src/plugins/replay/step_cache.py:114-172, 174-201). */
module ReplayQuarantine {
  import opened EnvSteps
  import opened ReplayProtocol
  import opened ReplayProofs
  import opened ReplaySystem

  /** With a chain, all its non-empty prefixes are recorded. */
  ghost predicate PrefixClosed(st: Store) {
    forall k :: k in st.entries ==>
      |k.chain| > 0 && forall j :: 0 < j <= |k.chain| ==> Key(k.scope, k.chain[..j]) in st.entries
  }

  /** How many leading prefixes of its chain an attempt relies on being recorded. */
  function Guaranteed(s: Attempt): nat {
    match s.pc
    case Ended(_) => 0
    case CatchUp(_) => |s.replayed|
    case WriteBlock(_) => |s.replayed|
    case ReadDiagnostic(_) => |s.replayed|
    case Idle => if !s.live then |s.replayed| else if s.recordable then |s.chain| else 0
    case AskBlocked => |s.replayed|
    case AskEntry => |s.replayed|
    case Execute => if s.recordable && |s.chain| > 0 then |s.chain| - 1 else 0
    case Record(_) => if |s.chain| > 0 then |s.chain| - 1 else 0
  }

  ghost predicate Stored(st: Store, s: Attempt) {
    && Guaranteed(s) <= |s.chain|
    && forall j :: 0 < j <= Guaranteed(s) ==> Key(s.scope, s.chain[..j]) in st.entries
  }

  ghost predicate DriftBlocked(st: Store, s: Attempt) {
    match s.pc
    case ReadDiagnostic(i) => i < |s.replayed| && s.replayed[i].key in st.blocked
    case Ended(Drifted(n)) => n <= |s.chain| && Key(s.scope, s.chain[..n]) in st.blocked
    case Ended(Lost(_)) => false
    case _ => true
  }

  ghost predicate QuarantineInv(rg: Regime, g: System) {
    && AllInv(rg, g) && PrefixClosed(g.store) && g.store.blocked <= g.store.entries.Keys
    && forall i :: 0 <= i < |g.attempts| ==>
         Stored(g.store, g.attempts[i]) && DriftBlocked(g.store, g.attempts[i])
  }

  /** Rows only appear; none is replaced or removed. */
  ghost predicate Grows(st: Store, st': Store) {
    && st.blocked <= st'.blocked
    && forall k :: k in st.entries ==> k in st'.entries && st'.entries[k] == st.entries[k]
  }

  lemma StepGrows(rg: Regime, env: EnvRelation, reliable: bool, g: System, m: Move)
    requires Possible(rg, env, reliable, g, m)
    ensures Grows(g.store, Apply(rg, g, m).store)
  {
  }

  lemma CommitKeepsStore(rg: Regime, st: Store, s: Attempt)
    requires AttemptInv(rg, s) && PrefixClosed(st) && st.blocked <= st.entries.Keys && Stored(st, s)
    requires s.pc.WriteBlock? || s.pc.Record?
    ensures var st' := Commit(st, s); PrefixClosed(st') && st'.blocked <= st'.entries.Keys
  {
    var st' := Commit(st, s);
    match s.pc
    case WriteBlock(i) =>
      assert s.replayed[i].key == Key(s.scope, s.chain[..i + 1]);
    case Record(r) =>
      var k := Key(s.scope, s.chain);
      forall j | 0 < j <= |s.chain| ensures Key(s.scope, s.chain[..j]) in st'.entries {
        if j == |s.chain| { assert s.chain[..j] == s.chain; }
      }
  }

  lemma WriteKeepsStored(rg: Regime, st: Store, s: Attempt)
    requires AttemptInv(rg, s) && Enabled(s, WriteReply) && Stored(st, s)
    ensures Stored(Commit(st, s), Next(rg, s, WriteReply))
  {
    if s.pc.Record? {
      var s' := Next(rg, s, WriteReply);
      forall j | 0 < j <= Guaranteed(s') ensures Key(s.scope, s.chain[..j]) in Commit(st, s).entries {
        if j == |s.chain| { assert s.chain[..j] == s.chain; }
      }
    }
  }

  lemma ReadKeepsStored(rg: Regime, st: Store, s: Attempt, hit: Option<StepResult>)
    requires AttemptInv(rg, s) && Enabled(s, EntryReply(hit)) && Stored(st, s)
    requires HonestReply(true, st, s, EntryReply(hit))
    ensures Stored(st, Next(rg, s, EntryReply(hit)))
  {
    assert s.chain[..|s.chain|] == s.chain;
  }

  lemma CallKeepsStored(rg: Regime, st: Store, s: Attempt, a: Action)
    requires AttemptInv(rg, s) && Enabled(s, Call(a)) && Stored(st, s)
    ensures Stored(st, Next(rg, s, Call(a)))
  {
    assert forall j :: 0 <= j <= |s.chain| ==> (s.chain + [a])[..j] == s.chain[..j];
  }

  lemma EnvKeepsStored(rg: Regime, st: Store, s: Attempt, r: StepResult, elapsed: real)
    requires AttemptInv(rg, s) && Enabled(s, EnvReply(r, elapsed)) && Stored(st, s)
    ensures Stored(st, Next(rg, s, EnvReply(r, elapsed)))
  {
  }

  /** The attempt that moves still has its recorded prefixes, in the store as it is afterwards. */
  lemma NextKeepsStored(rg: Regime, st: Store, s: Attempt, e: Event, st': Store)
    requires AttemptInv(rg, s) && Enabled(s, e) && Stored(st, s) && HonestReply(true, st, s, e)
    requires st' == if e.WriteReply? then Commit(st, s) else st
    ensures Stored(st', Next(rg, s, e))
  {
    match e
    case Call(a) => CallKeepsStored(rg, st, s, a);
    case BlockedReply(_) =>
    case EntryReply(hit) => ReadKeepsStored(rg, st, s, hit);
    case EnvReply(r, elapsed) => EnvKeepsStored(rg, st, s, r, elapsed);
    case WriteReply => WriteKeepsStored(rg, st, s);
    case Raised =>
  }

  lemma DiagnosticFindsItsRow(rg: Regime, st: Store, s: Attempt, hit: Option<StepResult>)
    requires s.pc.ReadDiagnostic? && AttemptInv(rg, s) && Enabled(s, EntryReply(hit))
    requires Stored(st, s) && DriftBlocked(st, s) && HonestReply(true, st, s, EntryReply(hit))
    ensures DriftBlocked(st, Next(rg, s, EntryReply(hit)))
  {
    assert s.replayed[s.pc.i].key == Key(s.scope, s.chain[..s.pc.i + 1]);
  }

  lemma NextKeepsDriftBlocked(rg: Regime, st: Store, s: Attempt, e: Event, st': Store)
    requires AttemptInv(rg, s) && Enabled(s, e) && Stored(st, s) && DriftBlocked(st, s)
    requires HonestReply(true, st, s, e) && st' == if e.WriteReply? then Commit(st, s) else st
    ensures DriftBlocked(st', Next(rg, s, e))
  {
    match e
    case Call(_) =>
    case BlockedReply(_) =>
    case EntryReply(hit) => if s.pc.ReadDiagnostic? { DiagnosticFindsItsRow(rg, st, s, hit); }
    case EnvReply(_, _) => assert !Next(rg, s, e).pc.ReadDiagnostic?;
    case WriteReply =>
    case Raised =>
  }

  lemma OthersKeep(st: Store, st': Store, s: Attempt)
    requires Grows(st, st')
    ensures Stored(st, s) ==> Stored(st', s)
    ensures DriftBlocked(st, s) ==> DriftBlocked(st', s)
  {
  }

  lemma ApplyKeepsQuarantine(rg: Regime, env: EnvRelation, g: System, m: Move)
    requires QuarantineInv(rg, g) && Possible(rg, env, true, g, m)
    ensures QuarantineInv(rg, Apply(rg, g, m))
  {
    var g' := Apply(rg, g, m);
    ApplyKeepsAllInv(rg, env, true, g, m);
    StepGrows(rg, env, true, g, m);
    if m.Do? { MoverKeeps(rg, env, g, m); }
    forall i | 0 <= i < |g'.attempts|
      ensures Stored(g'.store, g'.attempts[i]) && DriftBlocked(g'.store, g'.attempts[i])
    {
      if i < |g.attempts| { OthersKeep(g.store, g'.store, g.attempts[i]); }
    }
  }

  /** The attempt that moves, and the store after its move. */
  lemma MoverKeeps(rg: Regime, env: EnvRelation, g: System, m: Move)
    requires QuarantineInv(rg, g) && Possible(rg, env, true, g, m) && m.Do?
    ensures var g' := Apply(rg, g, m);
      && PrefixClosed(g'.store) && g'.store.blocked <= g'.store.entries.Keys
      && Stored(g'.store, g'.attempts[m.i]) && DriftBlocked(g'.store, g'.attempts[m.i])
  {
    var g', s := Apply(rg, g, m), g.attempts[m.i];
    if s.pc.WriteBlock? || s.pc.Record? { CommitKeepsStore(rg, g.store, s); }
    var st := if m.event.WriteReply? then Commit(g.store, s) else g.store;
    NextKeepsStored(rg, g.store, s, m.event, st);
    NextKeepsDriftBlocked(rg, g.store, s, m.event, st);
    OthersKeep(st, g'.store, g'.attempts[m.i]);
  }

  lemma {:induction false} ScheduleKeepsQuarantine(rg: Regime, env: EnvRelation, g: System, ms: seq<Move>)
    requires QuarantineInv(rg, g) && Schedule(rg, env, true, g, ms)
    ensures QuarantineInv(rg, Outcome(rg, env, true, g, ms))
    ensures Grows(g.store, Outcome(rg, env, true, g, ms).store)
    decreases |ms|
  {
    if ms != [] {
      ApplyKeepsQuarantine(rg, env, g, ms[0]);
      StepGrows(rg, env, true, g, ms[0]);
      ScheduleKeepsQuarantine(rg, env, Apply(rg, g, ms[0]), ms[1..]);
    }
  }

  /** Under every interleaving, with a reliable store: recorded chains are prefix-closed, only recorded
      chains are blocked, a drift has left the key of its first mismatch blocked, and the error is always
      the drift error (the recorded observation it quotes is still there). */
  lemma RecordedChainsArePrefixClosed(rg: Regime, env: EnvRelation, ms: seq<Move>)
    requires Schedule(rg, env, true, Empty, ms)
    ensures var g := Outcome(rg, env, true, Empty, ms);
      && (forall k, j :: k in g.store.entries && 0 < j <= |k.chain| ==>
            Key(k.scope, k.chain[..j]) in g.store.entries)
      && g.store.blocked <= g.store.entries.Keys
      && forall i :: 0 <= i < |g.attempts| && g.attempts[i].pc.Ended? ==>
           && !g.attempts[i].pc.why.Lost?
           && (g.attempts[i].pc.why.Drifted? ==>
                 && FirstMismatch(rg, g.attempts[i], g.attempts[i].pc.why.actionIndex)
                 && Key(g.attempts[i].scope, g.attempts[i].chain[..g.attempts[i].pc.why.actionIndex])
                      in g.store.blocked)
  {
    ScheduleKeepsQuarantine(rg, env, Empty, ms);
    var g := Outcome(rg, env, true, Empty, ms);
    forall i | 0 <= i < |g.attempts| && g.attempts[i].pc.Ended? && g.attempts[i].pc.why.Drifted?
      ensures FirstMismatch(rg, g.attempts[i], g.attempts[i].pc.why.actionIndex)
    {
      DriftIsFirstMismatch(rg, g.attempts[i], g.attempts[i].pc.why.actionIndex - 1);
    }
  }

  /** Prefix closure needs the reliable store: when the first of two writes is dropped, a chain is on record
      whose prefix is not. */
  lemma DroppedWriteBreaksClosure(rg: Regime, env: EnvRelation, scope: Scope, a: RunAction, b: RunAction,
                                  ra: StepResult, rb: StepResult) returns (g: System)
    requires env(scope, [Run(a)], ra) && env(scope, [Run(a), Run(b)], rb)
    requires !SkipRecording(rg, a, ra, 0.0) && !SkipRecording(rg, b, rb, 0.0)
    ensures Reaches(rg, env, false, g)
    ensures Key(scope, [Run(a), Run(b)]) in g.store.entries && Key(scope, [Run(a)]) !in g.store.entries
  {
    g := FirstActionGoesLive(rg, env, scope, a);
    g := Take(rg, env, false, g, Do(0, EnvReply(ra, 0.0), false));
    g := Take(rg, env, false, g, Do(0, WriteReply, false));
    g := SecondActionIsRecorded(rg, env, scope, a, b, rb, g);
  }

  lemma FirstActionGoesLive(rg: Regime, env: EnvRelation, scope: Scope, a: RunAction) returns (g: System)
    ensures Reaches(rg, env, false, g) && |g.attempts| == 1 && g.store == Store(map[], {})
    ensures var s := g.attempts[0];
      s.scope == scope && s.chain == [Run(a)] && s.live && s.recordable && s.replayed == [] && s.pc.Execute?
  {
    ReachesEmpty(rg, env, false);
    g := Take(rg, env, false, Empty, Start(scope));
    g := Take(rg, env, false, g, Do(0, Call(Run(a)), false));
    assert g.attempts[0].chain == [Run(a)];
    g := Take(rg, env, false, g, Do(0, BlockedReply(false), false));
    g := Take(rg, env, false, g, Do(0, EntryReply(None), false));
  }

  lemma SecondActionIsRecorded(rg: Regime, env: EnvRelation, scope: Scope, a: RunAction, b: RunAction,
                               rb: StepResult, g: System) returns (g': System)
    requires Reaches(rg, env, false, g) && |g.attempts| == 1 && g.store == Store(map[], {})
    requires var s := g.attempts[0];
      s.scope == scope && s.chain == [Run(a)] && s.live && s.recordable && s.pc.Idle?
    requires env(scope, [Run(a), Run(b)], rb) && !SkipRecording(rg, b, rb, 0.0)
    ensures Reaches(rg, env, false, g')
    ensures Key(scope, [Run(a), Run(b)]) in g'.store.entries && Key(scope, [Run(a)]) !in g'.store.entries
  {
    g' := Take(rg, env, false, g, Do(0, Call(Run(b)), false));
    assert g'.attempts[0].chain == [Run(a), Run(b)];
    g' := Take(rg, env, false, g', Do(0, EnvReply(rb, 0.0), false));
    g' := Take(rg, env, false, g', Do(0, WriteReply, true));
  }

  // ------------------------------------------------------------ quarantine of a blocked chain

  /** Where an attempt that began after `c` was blocked can be. */
  ghost predicate Kept(scope: Scope, c: seq<Action>, s: Attempt) {
    || s.scope != scope
    || s.pc.Ended?
    || (s.live && !s.recordable && !s.pc.Record?)
    || (s.chain < c && (!s.live && !s.pc.Record?))
    || (s.chain == c && !s.live && s.pc.AskBlocked?)
    || !(c <= s.chain || s.chain <= c)
  }

  /** The attempt is neither about to be served a chain from `c` on, nor about to record one. */
  ghost predicate HandsOff(scope: Scope, c: seq<Action>, s: Attempt) {
    s.scope == scope && c <= s.chain ==> !s.pc.AskEntry? && !s.pc.Record?
  }

  lemma CallKeepsKept(rg: Regime, s: Attempt, a: Action, scope: Scope, c: seq<Action>)
    requires AttemptInv(rg, s) && Enabled(s, Call(a)) && Kept(scope, c, s)
    ensures Kept(scope, c, Next(rg, s, Call(a)))
  {
  }

  lemma ReadKeepsKept(rg: Regime, st: Store, s: Attempt, hit: Option<StepResult>, scope: Scope, c: seq<Action>)
    requires AttemptInv(rg, s) && s.pc.AskEntry? && HonestReply(true, st, s, EntryReply(hit))
    requires PrefixClosed(st) && Key(scope, c) in st.entries && Kept(scope, c, s)
    ensures Kept(scope, c, Next(rg, s, EntryReply(hit)))
  {
    if s.scope == scope && s.chain < c {
      assert s.chain == c[..|s.chain|] && |s.chain| > 0;
      assert Key(scope, c[..|s.chain|]) in st.entries;
    }
  }

  lemma NextKeepsKept(rg: Regime, st: Store, s: Attempt, e: Event, scope: Scope, c: seq<Action>)
    requires AttemptInv(rg, s) && Enabled(s, e) && HonestReply(true, st, s, e)
    requires PrefixClosed(st) && st.blocked <= st.entries.Keys && Key(scope, c) in st.blocked
    requires Kept(scope, c, s)
    ensures Kept(scope, c, Next(rg, s, e))
  {
    match e
    case Call(a) => CallKeepsKept(rg, s, a, scope, c);
    case BlockedReply(_) =>
    case EntryReply(hit) => if s.pc.AskEntry? { ReadKeepsKept(rg, st, s, hit, scope, c); }
    case EnvReply(_, _) =>
    case WriteReply =>
    case Raised =>
  }

  lemma {:induction false} ScheduleKeepsKept(
    rg: Regime, env: EnvRelation, g: System, ms: seq<Move>, scope: Scope, c: seq<Action>, i: nat)
    requires QuarantineInv(rg, g) && Schedule(rg, env, true, g, ms)
    requires Key(scope, c) in g.store.blocked
    requires i < |g.attempts| && Kept(scope, c, g.attempts[i])
    ensures i < |Outcome(rg, env, true, g, ms).attempts|
    ensures Kept(scope, c, Outcome(rg, env, true, g, ms).attempts[i])
    decreases |ms|
  {
    if ms != [] {
      var m := ms[0];
      ApplyKeepsQuarantine(rg, env, g, m);
      StepGrows(rg, env, true, g, m);
      if m.Do? && m.i == i { NextKeepsKept(rg, g.store, g.attempts[i], m.event, scope, c); }
      ScheduleKeepsKept(rg, env, Apply(rg, g, m), ms[1..], scope, c, i);
    }
  }

  lemma {:induction false} ScheduleSplits(rg: Regime, env: EnvRelation, g: System, ms: seq<Move>, n: nat)
    requires n <= |ms| && Schedule(rg, env, true, g, ms)
    ensures Schedule(rg, env, true, g, ms[..n])
    ensures Schedule(rg, env, true, Outcome(rg, env, true, g, ms[..n]), ms[n..])
    ensures Outcome(rg, env, true, Outcome(rg, env, true, g, ms[..n]), ms[n..])
              == Outcome(rg, env, true, g, ms)
    decreases n
  {
    if n == 0 {
      assert ms[..0] == [] && ms[0..] == ms;
    } else {
      ScheduleSplits(rg, env, Apply(rg, g, ms[0]), ms[1..], n - 1);
      assert ms[..n][1..] == ms[1..][..n - 1] && ms[..n][0] == ms[0] && ms[1..][n - 1..] == ms[n..];
    }
  }

  /** Quarantine: once a chain key is blocked, no attempt that starts later is ever served that chain or
      an extension of it, and none ever records one -- whatever the other attempts do meanwhile. */
  lemma BlockedChainIsQuarantined(rg: Regime, env: EnvRelation, ms: seq<Move>, n: nat, m: nat,
                                  scope: Scope, c: seq<Action>, i: nat)
    requires Schedule(rg, env, true, Empty, ms) && n <= m <= |ms|
    requires Schedule(rg, env, true, Empty, ms[..n]) && Schedule(rg, env, true, Empty, ms[..m])
    requires Key(scope, c) in Outcome(rg, env, true, Empty, ms[..n]).store.blocked
    requires |Outcome(rg, env, true, Empty, ms[..n]).attempts| <= i
    requires i < |Outcome(rg, env, true, Empty, ms[..m]).attempts|
    ensures HandsOff(scope, c, Outcome(rg, env, true, Empty, ms[..m]).attempts[i])
  {
    var g := Outcome(rg, env, true, Empty, ms[..n]);
    ScheduleKeepsQuarantine(rg, env, Empty, ms[..n]);
    ScheduleSplits(rg, env, Empty, ms[..m], n);
    assert ms[..m][..n] == ms[..n];
    LateAttemptsKept(rg, env, g, ms[..m][n..], scope, c, i);
    RunInvAt(rg, env, ms[..m]);
    KeptHandsOff(rg, scope, c, Outcome(rg, env, true, Empty, ms[..m]).attempts[i]);
  }

  lemma RunInvAt(rg: Regime, env: EnvRelation, ms: seq<Move>)
    requires Schedule(rg, env, true, Empty, ms)
    ensures AllInv(rg, Outcome(rg, env, true, Empty, ms))
  {
    ScheduleKeepsQuarantine(rg, env, Empty, ms);
  }

  lemma KeptHandsOff(rg: Regime, scope: Scope, c: seq<Action>, s: Attempt)
    requires Kept(scope, c, s) && AttemptInv(rg, s)
    ensures HandsOff(scope, c, s)
  {
  }

  lemma {:induction false} LateAttemptsKept(
    rg: Regime, env: EnvRelation, g: System, ms: seq<Move>, scope: Scope, c: seq<Action>, i: nat)
    requires QuarantineInv(rg, g) && Schedule(rg, env, true, g, ms)
    requires Key(scope, c) in g.store.blocked
    requires |g.attempts| <= i < |Outcome(rg, env, true, g, ms).attempts|
    ensures Kept(scope, c, Outcome(rg, env, true, g, ms).attempts[i])
    decreases |ms|
  {
    if ms != [] {
      var m := ms[0];
      var g' := Apply(rg, g, m);
      ApplyKeepsQuarantine(rg, env, g, m);
      StepGrows(rg, env, true, g, m);
      if i < |g'.attempts| {
        assert |c| > 0 by { assert Key(scope, c) in g.store.entries; }
        assert Kept(scope, c, g'.attempts[i]);
        ScheduleKeepsKept(rg, env, g', ms[1..], scope, c, i);
      } else {
        LateAttemptsKept(rg, env, g', ms[1..], scope, c, i);
      }
    }
  }

  /** Once an attempt has ended, the rest of the schedule leaves it and its env as they are. */
  lemma {:induction false} EndedIsFinal(
    rg: Regime, env: EnvRelation, reliable: bool, g: System, ms: seq<Move>, i: nat)
    requires Schedule(rg, env, reliable, g, ms) && i < |g.attempts| && g.attempts[i].pc.Ended?
    ensures i < |Outcome(rg, env, reliable, g, ms).attempts|
    ensures Outcome(rg, env, reliable, g, ms).attempts[i] == g.attempts[i]
    decreases |ms|
  {
    if ms != [] { EndedIsFinal(rg, env, reliable, Apply(rg, g, ms[0]), ms[1..], i); }
  }
}
