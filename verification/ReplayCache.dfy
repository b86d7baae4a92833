/** The replay cache as the object it is in src/plugins/replay/step_cache.py, over a store that other
    attempts change at every await. The store keeps the protocol's account of all its attempts, and every
    access is one move of module ReplaySystem: what is proved there, and in ReplayQuarantine and ReplayDrift,
    of all schedules holds of these objects. */
module ReplayCaches {
  import opened EnvSteps
  import opened ReplayProtocol
  import opened ReplayProofs
  import opened ReplaySystem
  import opened ReplayQuarantine

  predicate IsBy(m: Move, me: nat) {
    m.Do? && m.i == me
  }

  /** The shared key/value store (src/plugins/caching/store.py): first write wins, and unless it is `reliable`
      reads and writes fail open. `attempts` is the protocol's account of everyone using it. */
  class CacheStore {
    const rg: Regime
    const relation: EnvRelation
    const reliable: bool
    var rows: Store
    var attempts: seq<Attempt>

    /** Some schedule of the protocol led here. */
    ghost predicate Valid()
      reads this
    {
      Reaches(rg, relation, reliable, System(rows, attempts))
    }

    constructor (rg: Regime, relation: EnvRelation, reliable: bool)
      ensures Valid() && rows == Store(map[], {}) && attempts == []
      ensures this.rg == rg && this.relation == relation && this.reliable == reliable
    {
      this.rg, this.relation, this.reliable := rg, relation, reliable;
      rows, attempts := Store(map[], {}), [];
      ReachesEmpty(rg, relation, reliable);
    }

    predicate MayMove(m: Move)
      reads this
    {
      Possible(rg, relation, reliable, System(rows, attempts), m)
    }

    method Move(m: Move)
      requires Valid() && MayMove(m)
      modifies this
      ensures Valid() && Grows(old(rows), rows)
      ensures rows == Apply(rg, old(System(rows, attempts)), m).store
      ensures attempts == Apply(rg, old(System(rows, attempts)), m).attempts
    {
      StepGrows(rg, relation, reliable, System(rows, attempts), m);
      ghost var g := Take(rg, relation, reliable, System(rows, attempts), m);
      var next := Apply(rg, System(rows, attempts), m);
      rows, attempts := next.store, next.attempts;
    }

    method Join(scope: Scope) returns (me: nat)
      requires Valid()
      modifies this
      ensures Valid() && rows == old(rows) && me == |old(attempts)| && attempts == old(attempts) + [Fresh(scope)]
    {
      me := |attempts|;
      Move(Start(scope));
    }

    method MoveOther(m: Move, me: nat)
      requires Valid() && MayMove(m) && me < |attempts| && !IsBy(m, me)
      modifies this
      ensures Valid() && Grows(old(rows), rows) && me < |attempts| && attempts[me] == old(attempts[me])
    {
      Move(m);
    }

    /** What concurrent attempts do: any moves but those of `me`. */
    method Interfere(me: nat)
      requires Valid() && me < |attempts|
      modifies this
      ensures Valid() && Grows(old(rows), rows) && me < |attempts| && attempts[me] == old(attempts[me])
    {
      var moves: seq<Move> := *;
      var i := 0;
      while i < |moves|
        invariant i <= |moves| && Valid() && Grows(old(rows), rows)
        invariant me < |attempts| && attempts[me] == old(attempts[me])
      {
        if MayMove(moves[i]) && !IsBy(moves[i], me) { MoveOther(moves[i], me); }
        i := i + 1;
      }
    }

    /** A call, a result of the env or its failure. */
    method Account(me: nat, e: Event)
      requires Valid() && me < |attempts| && Enabled(attempts[me], e) && (e.Call? || e.EnvReply? || e.Raised?)
      requires e.EnvReply? ==> relation(attempts[me].scope, Executing(attempts[me]), e.result) && e.elapsed >= 0.0
      modifies this
      ensures Valid() && Grows(old(rows), rows) && me < |attempts| && attempts[me] == Next(rg, old(attempts[me]), e)
    {
      Interfere(me);
      Move(Do(me, e, false));
    }

    method GetBlocked(me: nat, k: Key) returns (found: bool)
      requires Valid() && me < |attempts| && attempts[me].pc.AskBlocked?
      requires attempts[me].chain != [] && k == ReadKey(attempts[me])
      modifies this
      ensures Valid() && Grows(old(rows), rows) && me < |attempts|
      ensures attempts[me] == Next(rg, old(attempts[me]), BlockedReply(found))
      ensures (found ==> k in rows.blocked) && (reliable && !found ==> k !in rows.blocked)
    {
      Interfere(me);
      var readable: bool := *;
      found := (reliable || readable) && k in rows.blocked;
      Move(Do(me, BlockedReply(found), false));
    }

    method GetEntry(me: nat, k: Key) returns (hit: Option<StepResult>)
      requires Valid() && me < |attempts| && k == ReadKey(attempts[me])
      requires forall r :: Enabled(attempts[me], EntryReply(r))
      modifies this
      ensures Valid() && Grows(old(rows), rows) && me < |attempts|
      ensures attempts[me] == Next(rg, old(attempts[me]), EntryReply(hit))
      ensures hit.Some? ==> k in rows.entries && rows.entries[k] == hit.value
      ensures reliable && hit.None? ==> k !in rows.entries
    {
      Interfere(me);
      var readable: bool := *;
      hit := if (reliable || readable) && k in rows.entries then Some(rows.entries[k]) else None;
      Move(Do(me, EntryReply(hit), false));
    }

    method Write(me: nat, next: Store, ghost commit: bool)
      requires Valid() && me < |attempts| && Enabled(attempts[me], WriteReply) && (reliable ==> commit)
      requires next == if commit then Commit(rows, attempts[me]) else rows
      modifies this
      ensures Valid() && Grows(old(rows), rows) && rows == next
      ensures attempts == old(attempts)[me := Next(rg, old(attempts[me]), WriteReply)]
    {
      ghost var m := Do(me, WriteReply, commit);
      StepGrows(rg, relation, reliable, System(rows, attempts), m);
      ghost var g := Take(rg, relation, reliable, System(rows, attempts), m);
      rows, attempts := next, attempts[me := Next(rg, attempts[me], WriteReply)];
    }

    /** Marks `k` live-only in the store as other attempts have left it, or drops the write. */
    method PutBlocked(me: nat, k: Key) returns (ghost found: Store)
      requires Valid() && me < |attempts| && attempts[me].pc.WriteBlock?
      requires attempts[me].pc.i < |attempts[me].replayed| && k == attempts[me].replayed[attempts[me].pc.i].key
      modifies this
      ensures Valid() && Grows(old(rows), found) && me < |attempts|
      ensures attempts[me] == Next(rg, old(attempts[me]), WriteReply)
      ensures rows == found.(blocked := found.blocked + {k}) || (rows == found && !reliable)
    {
      Interfere(me);
      found := rows;
      var writable: bool := *;
      Write(me, if reliable || writable then rows.(blocked := rows.blocked + {k}) else rows, reliable || writable);
    }

    /** Inserts a row in the store as other attempts have left it unless `k` has one, or drops the write. */
    method PutEntry(me: nat, k: Key, v: StepResult) returns (ghost found: Store)
      requires Valid() && me < |attempts| && attempts[me].pc == Record(v)
      requires attempts[me].chain != [] && k == Key(attempts[me].scope, attempts[me].chain)
      modifies this
      ensures Valid() && Grows(old(rows), found) && me < |attempts|
      ensures attempts[me] == Next(rg, old(attempts[me]), WriteReply)
      ensures rows.blocked == found.blocked && (rows.entries == found.entries ||
        (k !in found.entries && rows.entries == found.entries[k := v]))
      ensures reliable || k in found.entries ==>
        k in rows.entries && rows.entries[k] == if k in found.entries then found.entries[k] else v
    {
      Interfere(me);
      found := rows;
      var writable: bool := *;
      Write(me, if reliable || writable then rows.(entries := Insert(rows.entries, k, v)) else rows, reliable || writable);
    }
  }

  /** A task environment behind `execute_env_action`: a result that `relation` allows after what it executed
      before, or a raised error. */
  class TaskEnv {
    const scope: Scope
    const relation: EnvRelation
    var log: seq<EnvStep>

    constructor (scope: Scope, relation: EnvRelation)
      ensures log == [] && this.scope == scope && this.relation == relation
    {
      this.scope, this.relation, log := scope, relation, [];
    }

    method Execute(a: Action) returns (r: Option<StepResult>, elapsed: real)
      modifies this
      ensures log == if r.Some? then old(log) + [EnvStep(a, r.value)] else old(log)
      ensures r.Some? ==> relation(scope, Actions(old(log)) + [a], r.value)
      ensures elapsed >= 0.0
    {
      r, elapsed := *, *;
      if elapsed < 0.0 { elapsed := 0.0; }
      if r.Some? {
        if !relation(scope, Actions(log) + [a], r.value) { return None, elapsed; }
        log := log + [EnvStep(a, r.value)];
      }
    }
  }

  /** The exceptions of the cache; `Misuse` is the RuntimeError of a `step_verify` that no live
      `prepare_submit` preceded. */
  datatype Error = Drift(actionIndex: nat) | PayloadDisappeared(actionIndex: nat) | EnvFailure | Misuse

  datatype Reply<+T> = Ok(value: T) | Raise(error: Error)

  function EndingOf(e: Error): Pc {
    match e
    case Drift(n) => Ended(Drifted(n))
    case PayloadDisappeared(n) => Ended(Lost(n))
    case EnvFailure => Ended(Aborted)
    case Misuse => Idle
  }

  /** The env of a live attempt has executed exactly what precedes the action it is asked for. */
  lemma HistoryIsExecuting(rg: Regime, s: Attempt, a: Action)
    requires AttemptInv(rg, s) && s.live && s.chain != []
    requires match s.pc
             case CatchUp(i) => i < |s.replayed| && a == Run(s.replayed[i].action)
             case Execute => a == s.chain[|s.chain| - 1]
             case _ => false
    ensures Actions(s.envLog) + [a] == Executing(s)
  {
    var n := if s.pc.CatchUp? then s.pc.i else |s.chain| - 1;
    assert s.chain[..n + 1] == s.chain[..n] + [s.chain[n]];
    assert s.chain[..|s.chain|] == s.chain;
  }

  class ReplayCache {
    const scope: Scope
    const store: CacheStore
    const env: TaskEnv
    const me: nat
    var digest: Key
    var replayed: seq<Replayed>
    var live: bool
    var recordableChain: bool
    var verifyKey: Option<Key>

    ghost predicate Known()
      reads store
    {
      store.Valid() && me < |store.attempts|
    }

    /** The protocol's account of this attempt. */
    ghost function View(): Attempt
      reads store
      requires Known()
    {
      store.attempts[me]
    }

    /** The fields are what the protocol says, `live` and `replayed` being given. */
    ghost predicate Tracks(isLive: bool, toReplay: seq<Replayed>)
      reads this, env, store
    {
      && Known() && View().scope == scope == env.scope && env.relation == store.relation
      && digest == Key(scope, View().chain) && View().replayed == toReplay && View().live == isLive
      && View().recordable == recordableChain && View().envLog == env.log
    }

    ghost predicate Valid()
      reads this, env, store
    {
      Tracks(live, replayed)
    }

    /** What a write of `v` under `key` leaves of the rows it found: first write wins, and only an unreliable
        store may drop it. */
    ghost predicate Recorded(found: Store, key: Key, v: StepResult)
      reads store
    {
      && store.rows.blocked == found.blocked
      && (store.rows.entries == found.entries || (key !in found.entries && store.rows.entries == found.entries[key := v]))
      && (store.reliable ==> key in store.rows.entries)
    }

    lemma ViewInv()
      requires Known()
      ensures AttemptInv(store.rg, View())
    {
      ReachesSound(store.rg, store.relation, store.reliable, System(store.rows, store.attempts));
    }

    constructor (scope: Scope, store: CacheStore, env: TaskEnv)
      requires store.Valid() && env.log == [] && env.scope == scope && env.relation == store.relation
      modifies store
      ensures Valid() && View() == Fresh(scope) && store.rows == old(store.rows)
      ensures this.store == store && this.env == env && this.scope == scope
    {
      this.scope, this.store, this.env := scope, store, env;
      digest := Key(scope, []);
      replayed, live, recordableChain, verifyKey := [], false, true, None;
      me := |store.attempts|;
      new;
      var joined := store.Join(scope);
    }

    method Advance(a: Action) returns (key: Key)
      requires Valid() && View().pc.Idle?
      modifies this`digest, store
      ensures Valid()
      ensures View() == Next(store.rg, old(View()), Call(a)) && key == digest
    {
      store.Account(me, Call(a));
      digest := Key(scope, digest.chain + [a]);
      key := digest;
    }

    /** `_serve_replay`: a hit is delivered; a miss leaves the protocol about to go live. */
    method ServeReplay(key: Key) returns (r: Option<StepResult>)
      requires Valid() && key == digest && |digest.chain| > 0
      requires View().pc == if live then Execute else AskBlocked
      modifies this`recordableChain, store
      ensures Known()
      ensures r.Some? ==>
        && !live && Tracks(false, View().replayed) && View().envLog == old(View().envLog)
        && View() == Served(store.rg, old(View()).(pc := AskEntry), r.value)
      ensures r.None? && live ==> Valid() && View() == old(View())
      ensures r.None? && !live ==>
        Tracks(true, replayed) && View().outputs == old(View().outputs) && View().chain == old(View().chain)
        && View().pc == if replayed == [] then Execute else CatchUp(0)
      ensures r.Some? ==>
        recordableChain == old(recordableChain) && key in store.rows.entries && store.rows.entries[key] == r.value
      ensures recordableChain != old(recordableChain) ==> key in store.rows.blocked
      ensures r.None? && !live && store.reliable ==> key in store.rows.blocked || key !in store.rows.entries
    {
      if live { return None; }
      var found := store.GetBlocked(me, key);
      if found {
        recordableChain := false;
        return None;
      }
      r := store.GetEntry(me, key);
    }

    /** `execute_env_action` on this attempt's env. */
    method Perform(a: Action) returns (r: Option<StepResult>, elapsed: real)
      requires Known() && Tracks(true, View().replayed) && View().chain != []
      requires match View().pc
               case CatchUp(i) => i < |View().replayed| && a == Run(View().replayed[i].action)
               case Execute => a == View().chain[|View().chain| - 1]
               case _ => false
      modifies env, store
      ensures Known() && Grows(old(store.rows), store.rows)
      ensures r.None? ==> View() == old(View()).(pc := Ended(Aborted))
      ensures r.Some? ==>
        View() == Next(store.rg, old(View()), EnvReply(r.value, elapsed)) && env.log == old(env.log) + [EnvStep(a, r.value)]
    {
      ViewInv();
      HistoryIsExecuting(store.rg, View(), a);
      r, elapsed := env.Execute(a);
      store.Account(me, if r.None? then Raised else EnvReply(r.value, elapsed));
    }

    /** The key of a drift is marked live-only and its recording is quoted. */
    method ReportDrift(i: nat) returns (e: Error)
      requires Known() && i < |replayed| && View().pc == WriteBlock(i) && View().replayed == replayed
      modifies store
      ensures Known()
      ensures View().chain == old(View().chain) && View().outputs == old(View().outputs)
      ensures View().pc == EndingOf(e) && (e == Drift(i + 1) || e == PayloadDisappeared(i + 1))
      ensures store.reliable ==> replayed[i].key in store.rows.blocked
      ensures e.Drift? ==> replayed[i].key in store.rows.entries
    {
      var p := replayed[i];
      ghost var found := store.PutBlocked(me, p.key);
      var quoted := store.GetEntry(me, p.key);
      e := if quoted.Some? then Drift(i + 1) else PayloadDisappeared(i + 1);
    }

    /** `_materialize`: re-executes the replayed prefix and compares each result with its recording. */
    method Materialize() returns (r: Reply<()>)
      requires Tracks(true, replayed) && replayed != [] && View().pc == CatchUp(0) && |digest.chain| > 0
      modifies this`replayed, env, store
      ensures Known()
      ensures View().chain == old(View().chain) && View().outputs == old(View().outputs)
      ensures r.Ok? ==> replayed == [] && Tracks(true, []) && View().pc == Execute
      ensures r.Raise? ==> !r.error.Misuse? && View().pc == EndingOf(r.error)
    {
      var i := 0;
      while i < |replayed|
        invariant i <= |replayed| && replayed == old(replayed)
        invariant Tracks(true, if i < |replayed| then replayed else [])
        invariant View().pc == if i < |replayed| then CatchUp(i) else Execute
        invariant View().chain == old(View().chain) && View().outputs == old(View().outputs)
      {
        var failure := CatchUpOne(i);
        if failure.Some? { return Raise(failure.value); }
        i := i + 1;
      }
      replayed := [];
      r := Ok(());
    }

    /** Re-executes one served action and compares it with its recorded hash: the catch-up goes on exactly if the
        re-execution shows what the caller was served. */
    method CatchUpOne(i: nat) returns (failure: Option<Error>)
      requires i < |replayed| && Tracks(true, replayed) && View().pc == CatchUp(i) && |digest.chain| > 0
      modifies env, store
      ensures Known()
      ensures View().chain == old(View().chain) && View().outputs == old(View().outputs)
      ensures failure == None ==>
        && Tracks(true, if i + 1 < |replayed| then replayed else [])
        && View().pc == if i + 1 < |replayed| then CatchUp(i + 1) else Execute
      ensures failure.Some? ==>
        View().pc == EndingOf(failure.value) && failure.value in {EnvFailure, Drift(i + 1), PayloadDisappeared(i + 1)}
      ensures failure.Some? && failure.value != EnvFailure && store.reliable ==> replayed[i].key in store.rows.blocked
      ensures failure != Some(EnvFailure) ==>
        && i < |View().outputs| && |env.log| == |old(env.log)| + 1
        && env.log[|old(env.log)|].action == Run(replayed[i].action)
        && (failure == None <==>
              Reproduces(store.rg.scrubber, View().outputs[i], env.log[|old(env.log)|].result, Some(replayed[i].action.command)))
    {
      var p := replayed[i];
      ViewInv();
      ghost var served := View().outputs[i];
      assert p.recordedHash == ScrubbedHash(store.rg.scrubber, served, Some(p.action.command));
      var result, elapsed := Perform(Run(p.action));
      if result.None? { return Some(EnvFailure); }
      HashesCompare(store.rg.scrubber, served, result.value, Some(p.action.command));
      if LiveHash(store.rg.scrubber, result.value, Some(p.action.command)) != p.recordedHash {
        var e := ReportDrift(i);
        return Some(e);
      }
      failure := None;
    }

    /** `_go_live`: idempotent; the first call materializes the replayed prefix. */
    method GoLive() returns (r: Reply<()>)
      requires |digest.chain| > 0 && Tracks(true, replayed) && (live ==> replayed == [])
      requires View().pc == if replayed == [] then Execute else CatchUp(0)
      modifies this`live, this`replayed, env, store
      ensures Known()
      ensures View().chain == old(View().chain) && View().outputs == old(View().outputs)
      ensures r.Ok? ==> live && Valid() && View().pc == Execute && replayed == []
      ensures r.Raise? ==> !r.error.Misuse? && View().pc == EndingOf(r.error)
    {
      if live { return Ok(()); }
      live := true;
      if replayed == [] { return Ok(()); }
      r := Materialize();
    }

    /** `_record_run` on a result the env has just produced. */
    method RecordRun(key: Key, a: RunAction, result: StepResult, elapsed: real, ghost before: Attempt)
      returns (ghost found: Store)
      requires Known() && before.chain != [] && before.chain[|before.chain| - 1] == Run(a)
      requires View() == AfterExecute(store.rg, before, result, elapsed)
      requires before.recordable == recordableChain && before.live == live && before.replayed == replayed
      requires before.scope == scope == env.scope && env.relation == store.relation
      requires digest == Key(scope, before.chain) == key
      requires env.log == before.envLog + [EnvStep(Run(a), result)]
      modifies this`recordableChain, store
      ensures Valid() && View().pc.Idle?
      ensures View().chain == before.chain && View().outputs == before.outputs + [result]
      ensures recordableChain <==> old(recordableChain) && !SkipRecording(store.rg, a, result, elapsed)
      ensures Grows(old(store.rows), found)
      ensures if recordableChain then Recorded(found, key, result) else store.rows == old(store.rows)
    {
      found := store.rows;
      if !recordableChain { return; }
      if SkipRecording(store.rg, a, result, elapsed) {
        recordableChain := false;
        return;
      }
      found := store.PutEntry(me, key, result);
    }

    /** The live half of `step_run`: catch up if need be, then execute and record. */
    method RunLive(key: Key, a: RunAction) returns (r: Reply<StepResult>)
      requires |digest.chain| > 0 && Tracks(true, replayed) && (live ==> replayed == [])
      requires View().pc == if replayed == [] then Execute else CatchUp(0)
      requires key == digest && digest.chain[|digest.chain| - 1] == Run(a)
      modifies this, env, store
      ensures Known()
      ensures r.Ok? ==>
        && Valid() && live && View().pc.Idle? && View().chain == old(View().chain)
        && View().outputs == old(View().outputs) + [r.value]
      ensures r.Raise? ==> !r.error.Misuse? && View().pc == EndingOf(r.error)
    {
      var gone := GoLive();
      if gone.Raise? { return Raise(gone.error); }
      ghost var before := View();
      var result, elapsed := Perform(Run(a));
      if result.None? { return Raise(EnvFailure); }
      ghost var found := RecordRun(key, a, result.value, elapsed, before);
      r := Ok(result.value);
    }

    /** A run action: served from the store while the chain is known, live afterwards. On a normal return
        the caller holds the result of exactly this action; an exception has ended the attempt. */
    method StepRun(a: RunAction) returns (r: Reply<StepResult>)
      requires Valid() && View().pc.Idle?
      modifies this, env, store
      ensures Known()
      ensures r.Ok? ==>
        && Valid() && View().pc.Idle?
        && View().chain == old(View().chain) + [Run(a)]
        && View().outputs == old(View().outputs) + [r.value]
      ensures r.Ok? && !live ==> digest in store.rows.entries && store.rows.entries[digest] == r.value
      ensures r.Raise? ==> !r.error.Misuse? && View().pc == EndingOf(r.error)
    {
      ViewInv();
      assert live ==> replayed == [];
      var key := Advance(Run(a));
      var served := ServeReplay(key);
      if served.Some? {
        var hash := ScrubbedHash(store.rg.scrubber, served.value, Some(a.command));
        replayed := replayed + [Replayed(a, key, hash)];
        return Ok(served.value);
      }
      r := RunLive(key, a);
    }

    /** The submit action: a recorded verdict ends the attempt, otherwise the env is brought to chain
        state for `StepVerify`. */
    method PrepareSubmit() returns (r: Reply<Option<StepResult>>)
      requires Valid() && View().pc.Idle?
      modifies this, env, store
      ensures Known()
      ensures r.Ok? ==> View().chain == old(View().chain) + [Verify]
      ensures r.Ok? && r.value.Some? ==>
        && View().pc == Ended(Submitted) && View().outputs == old(View().outputs) + [r.value.value]
        && digest == Key(scope, View().chain)
        && digest in store.rows.entries && store.rows.entries[digest] == r.value.value
      ensures r.Ok? && r.value.None? ==>
        && Valid() && View().pc == Execute && live && View().outputs == old(View().outputs)
        && verifyKey == Some(Key(scope, View().chain))
      ensures r.Raise? ==> !r.error.Misuse? && View().pc == EndingOf(r.error)
    {
      ViewInv();
      assert live ==> replayed == [];
      var key := Advance(Verify);
      verifyKey := Some(key);
      var served := ServeReplay(key);
      if served.Some? { return Ok(served); }
      var gone := GoLive();
      if gone.Raise? { return Raise(gone.error); }
      r := Ok(None);
    }

    /** The live verdict, recorded unless the chain is not recordable. */
    method StepVerify() returns (r: Reply<StepResult>, ghost found: Store)
      requires Valid()
      requires verifyKey.Some? && live ==>
        View().pc == Execute && verifyKey.value == Key(scope, View().chain)
        && |View().chain| > 0 && View().chain[|View().chain| - 1].Verify?
      modifies this, env, store
      ensures Known()
      ensures (r.Raise? && r.error.Misuse?) <==> old(verifyKey.None? || !live)
      ensures r.Raise? && r.error.Misuse? ==>
        env.log == old(env.log) && store.rows == old(store.rows) && store.attempts == old(store.attempts)
      ensures r.Ok? ==>
        && View().pc == Ended(Submitted) && View().chain == old(View().chain)
        && View().outputs == old(View().outputs) + [r.value]
      ensures r.Ok? && recordableChain ==> verifyKey.Some? && Recorded(found, verifyKey.value, r.value)
      ensures r.Raise? && !r.error.Misuse? ==> View().pc == EndingOf(r.error)
    {
      found := store.rows;
      if verifyKey.None? || !live { return Raise(Misuse), found; }
      var result, elapsed := Perform(Verify);
      if result.None? { return Raise(EnvFailure), found; }
      if recordableChain {
        found := store.PutEntry(me, verifyKey.value, result.value);
      }
      r := Ok(result.value);
    }
  }

  /** Whatever was served and whatever was executed, when an episode's last call returns a verdict the
      caller holds one output per action; and if the attempt went live, the env has executed the whole
      chain and agrees with every output. */
  lemma SubmittedEpisode(c: ReplayCache)
    requires c.Known() && c.View().pc == Ended(Submitted)
    ensures |c.View().outputs| == |c.View().chain|
    ensures c.View().live ==>
      Actions(c.View().envLog) == c.View().chain
      && forall k: nat :: k < |c.View().chain| ==> k < |c.View().envLog| && Agrees(c.store.rg, c.View(), k)
    ensures !c.View().live ==> c.View().envLog == []
  {
    c.ViewInv();
    var s := c.View();
    assert s.chain[..|s.chain|] == s.chain;
    assert |s.envLog| == |Actions(s.envLog)|;
    if s.live {
      assert AgreesUpTo(c.store.rg, s, |s.chain|);
    }
  }

  /** What holds of a store at any point of any program over these objects: its rows and what its attempts
      delivered are results of the env; and if it is reliable, its chains are prefix-closed, and a drift has
      left the key of its first mismatch blocked and was reported with the recording it quotes. */
  lemma StoreKeepsItsPromises(store: CacheStore)
    requires store.Valid()
    ensures forall k :: k in store.rows.entries ==> store.relation(k.scope, k.chain, store.rows.entries[k])
    ensures forall i :: 0 <= i < |store.attempts| ==>
      LiveResults(store.relation, store.attempts[i].scope, store.attempts[i].chain, store.attempts[i].outputs)
    ensures store.reliable ==> forall k, j :: k in store.rows.entries && 0 < j <= |k.chain| ==>
      Key(k.scope, k.chain[..j]) in store.rows.entries
    ensures store.reliable ==> forall i :: 0 <= i < |store.attempts| && store.attempts[i].pc.Ended? ==>
      ProperEnd(store.rg, store.rows, store.attempts[i])
  {
    var g := System(store.rows, store.attempts);
    var ms :| Schedule(store.rg, store.relation, store.reliable, Empty, ms)
      && Outcome(store.rg, store.relation, store.reliable, Empty, ms) == g;
    ReplayRefinesLive(store.rg, store.relation, store.reliable, ms);
    forall i | 0 <= i < |store.attempts|
      ensures LiveResults(store.relation, store.attempts[i].scope, store.attempts[i].chain, store.attempts[i].outputs)
    {
      assert g.attempts[i] == Outcome(store.rg, store.relation, store.reliable, Empty, ms).attempts[i];
    }
    if store.reliable { RecordedChainsArePrefixClosed(store.rg, store.relation, ms); }
  }

  ghost predicate ProperEnd(rg: Regime, st: Store, s: Attempt)
    requires s.pc.Ended?
  {
    && !s.pc.why.Lost?
    && (s.pc.why.Drifted? ==>
          && FirstMismatch(rg, s, s.pc.why.actionIndex)
          && Key(s.scope, s.chain[..s.pc.why.actionIndex]) in st.blocked)
  }
}
