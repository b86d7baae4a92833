/** The determinism audit and its certificates across epochs (src/plugins/replay/audit.py:43-251,
    src/rollout/certification.py:100-140, src/trainer/trainer.py:136-161). */
module Certification {
  import opened EnvSteps

  /** What a chain row remembers of its step: the audit hash of a run, the verdict summary of a verify. */
  datatype Evidence = AuditHash(payload: StepResult) | VerdictSummary(passed: Option<bool>, reward: real)

  datatype Row = Row(action: Action, evidence: Evidence, timedOut: bool)

  datatype Verdict = Deterministic | Forked | NoChain

  datatype Certificate = Certificate(chainDigest: string, verdict: Verdict)

  datatype Baseline = Baseline(
    id: nat, identity: string, tasks: seq<string>, certification: Option<map<string, Certificate>>)

  /** One audit: the rows it took, and what re-executing their actions on a fresh environment gave. */
  datatype Audit = Audit(run: nat, task: string, identity: string, rows: seq<Row>, lives: seq<StepResult>)

  function Actions(rows: seq<Row>): (a: seq<Action>)
    ensures |a| == |rows|
  {
    seq(|rows|, i requires 0 <= i < |rows| => rows[i].action)
  }

  predicate HasTimeout(rows: seq<Row>) {
    exists r :: r in rows && r.timedOut
  }

  function Summary(r: StepResult): Evidence {
    VerdictSummary(if r.verdict == Some(Completed(true)) then Some(true)
                   else if r.verdict == Some(Completed(false)) then Some(false) else None, r.reward)
  }

  /** `_compare_action`: the live result is scrubbed, and a run's hash scrubs it again. */
  predicate Matches(s: Scrubber, row: Row, live: StepResult) {
    if row.action.Run?
    then row.evidence == AuditHash(LiveHash(s, live, CommandOf(row.action)))
    else row.evidence == Summary(live)
  }

  /** The row `write_chain` writes for a step whose executor returned `r`; the episode scrubs the result before
      it puts the step on the chain. */
  function RowFor(s: Scrubber, a: Action, r: StepResult, timedOut: bool): Row {
    var scrubbed := ScrubResult(s, r, CommandOf(a));
    Row(a, if a.Run? then AuditHash(ScrubbedHash(s, scrubbed, CommandOf(a))) else Summary(scrubbed), timedOut)
  }

  /** The audit scrubs both sides equally often: a step is confirmed by a re-execution that gives the same
      result, with any scrubber, whether it ran live or the replay cache served the recorded result. (The
      cache's own catch-up does not: see module ReplayDrift.) Conversely, a confirmed run step agrees with
      its re-execution up to the audit's canonical form. */
  lemma ReexecutionConfirms(s: Scrubber, a: Action, r: StepResult, live: StepResult)
    ensures Matches(s, RowFor(s, a, r, false), r)
    ensures a.Run? ==>
      Matches(s, RowFor(s, a, r, false), live) == (LiveHash(s, live, CommandOf(a)) == LiveHash(s, r, CommandOf(a)))
  {
    assert Summary(ScrubResult(s, r, CommandOf(a))) == Summary(r);
  }

  /** What is compared in the end: of a run, both streams after two scrubs on either side, and every other field; of
      a verify, the reward and whether it completed with a pass, with a failure, or not at all. */
  ghost predicate SameToTheAudit(s: Scrubber, a: Action, r: StepResult, live: StepResult) {
    match a
    case Run(run) =>
      var c := Some(run.command);
      && s.canon(s.scrub(s.scrub(live.output.stdout, c), c)) == s.canon(s.scrub(s.scrub(r.output.stdout, c), c))
      && s.canon(s.scrub(s.scrub(live.output.stderr, c), c)) == s.canon(s.scrub(s.scrub(r.output.stderr, c), c))
      && live.(output := r.output) == r
      && live.output.(stdout := r.output.stdout, stderr := r.output.stderr) == r.output
    case Verify =>
      && live.reward == r.reward
      && forall passed :: live.verdict == Some(Completed(passed)) <==> r.verdict == Some(Completed(passed))
  }

  lemma ConfirmedIff(s: Scrubber, a: Action, r: StepResult, live: StepResult, timedOut: bool)
    ensures RowFor(s, a, r, timedOut).action == a && RowFor(s, a, r, timedOut).timedOut == timedOut
    ensures Matches(s, RowFor(s, a, r, timedOut), live) <==> SameToTheAudit(s, a, r, live)
  {
    var c := CommandOf(a);
    if a.Run? {
      HashesCompare(s, ScrubResult(s, r, c), live, c);
      var scrubbed := ScrubResult(s, r, c);
      assert live.(output := scrubbed.output) == scrubbed <==> live.(output := r.output) == r;
      assert live.output.(stdout := scrubbed.output.stdout, stderr := scrubbed.output.stderr) == scrubbed.output
        <==> live.output.(stdout := r.output.stdout, stderr := r.output.stderr) == r.output;
    } else {
      assert forall v: Option<EnvSteps.Verdict> :: v.Some? && v.value.Completed? ==> v == Some(Completed(v.value.passed));
      assert live.verdict == Some(Completed(true)) <==> Summary(live).passed == Some(true);
      assert live.verdict == Some(Completed(false)) <==> Summary(live).passed == Some(false);
    }
  }

  /** Every row matched. */
  ghost predicate Passed(s: Scrubber, a: Audit) {
    && !HasTimeout(a.rows) && |a.lives| == |a.rows|
    && forall k :: 0 <= k < |a.rows| ==> Matches(s, a.rows[k], a.lives[k])
  }

  /** Some row did not match, and none before it. */
  ghost predicate Mismatched(s: Scrubber, a: Audit) {
    && !HasTimeout(a.rows) && 0 < |a.lives| <= |a.rows|
    && (forall k :: 0 <= k < |a.lives| - 1 ==> Matches(s, a.rows[k], a.lives[k]))
    && !Matches(s, a.rows[|a.lives| - 1], a.lives[|a.lives| - 1])
  }

  function Excluded(b: Baseline, t: string): bool {
    b.certification.Some? && t in b.certification.value && !b.certification.value[t].verdict.Deterministic?
  }

  function Select(b: Baseline, tasks: seq<string>): seq<string> {
    if tasks == [] then [] else (if Excluded(b, tasks[0]) then [] else [tasks[0]]) + Select(b, tasks[1..])
  }

  /** The tasks the epoch goes on with, in the baseline's order. */
  function Panel(b: Baseline): seq<string> { Select(b, b.tasks) }

  function TaskSet(tasks: seq<string>): set<string> { set t | t in tasks }

  lemma TaskSetPush(tasks: seq<string>, i: nat)
    requires i < |tasks|
    ensures TaskSet(tasks[..i + 1]) == TaskSet(tasks[..i]) + {tasks[i]} <= TaskSet(tasks)
  {
    assert tasks[..i + 1] == tasks[..i] + [tasks[i]];
  }

  /** Fixed over a session: digests, scrubbers and the chain files the measured runs left. */
  datatype World = World(digest: seq<Action> -> string, scrubber: Scrubber, chains: (nat, string) -> Option<seq<Row>>)

  /** `_load_chain`: a missing file has the digest of no actions at all. */
  function RowsOf(w: World, run: nat, task: string): seq<Row> {
    var file := w.chains(run, task);
    if file.Some? then file.value else []
  }

  function ChainDigest(w: World, run: nat, task: string): string {
    w.digest(Actions(RowsOf(w, run, task)))
  }

  ghost predicate Reached(s: Scrubber, a: Audit, verdict: Verdict) {
    match verdict
    case Deterministic => Passed(s, a)
    case Forked => Mismatched(s, a)
    case NoChain => false
  }

  /** Some audit under `identity` of a chain with this digest came to this verdict. */
  ghost predicate Backed(
    w: World, audits: seq<Audit>, identity: string, task: string, chainDigest: string, verdict: Verdict) {
    exists a :: a in audits && a.identity == identity && a.task == task && w.digest(Actions(a.rows)) == chainDigest
      && Reached(w.scrubber, a, verdict)
  }

  /** A certificate speaks about its own run's chain, and a verdict on determinism rests on an audit. */
  ghost predicate Sound(w: World, audits: seq<Audit>, b: Baseline, t: string, c: Certificate) {
    && c.chainDigest == ChainDigest(w, b.id, t)
    && (!c.verdict.NoChain? ==>
          !HasTimeout(RowsOf(w, b.id, t)) && Backed(w, audits, b.identity, t, c.chainDigest, c.verdict))
  }

  ghost predicate AllSound(w: World, audits: seq<Audit>, b: Baseline, cs: map<string, Certificate>) {
    forall t :: t in cs ==> Sound(w, audits, b, t, cs[t])
  }

  ghost predicate Certified(w: World, audits: seq<Audit>, b: Baseline) {
    b.certification.Some? ==>
      b.certification.value.Keys == TaskSet(b.tasks) && AllSound(w, audits, b, b.certification.value)
  }

  lemma BackedByMore(
    w: World, audits: seq<Audit>, more: seq<Audit>, identity: string, task: string, d: string, v: Verdict)
    requires Backed(w, audits, identity, task, d, v) && audits <= more
    ensures Backed(w, more, identity, task, d, v)
  {
    var a :| a in audits && a.identity == identity && a.task == task && w.digest(Actions(a.rows)) == d
      && Reached(w.scrubber, a, v);
    assert a in more;
  }

  function AuditedActions(audits: seq<Audit>): set<seq<Action>> {
    set a | a in audits :: Actions(a.rows)
  }

  ghost predicate AuditedExactly(w: World, audits: seq<Audit>, identity: string, task: string, actions: seq<Action>) {
    exists a :: a in audits && a.identity == identity && a.task == task && Actions(a.rows) == actions && Passed(w.scrubber, a)
  }

  /** With a digest that tells the audited action lists from this run's, a deterministic certificate means:
      under the same measurement identity an audit re-executed exactly this run's actions, and every row
      matched. */
  lemma DeterministicMeansAudited(w: World, audits: seq<Audit>, b: Baseline, t: string)
    requires b.certification.Some? && Certified(w, audits, b) && t in b.tasks && !Excluded(b, t)
    requires var mine := Actions(RowsOf(w, b.id, t));
      forall x :: x in AuditedActions(audits) && w.digest(x) == w.digest(mine) ==> x == mine
    ensures AuditedExactly(w, audits, b.identity, t, Actions(RowsOf(w, b.id, t)))
    ensures !HasTimeout(RowsOf(w, b.id, t))
  {
    var c := b.certification.value[t];
    assert Sound(w, audits, b, t, c);
    var a :| a in audits && a.identity == b.identity && a.task == t && w.digest(Actions(a.rows)) == c.chainDigest
      && Reached(w.scrubber, a, Deterministic);
    assert Actions(a.rows) in AuditedActions(audits);
  }

  /** The panel keeps the baseline's order. */
  lemma {:induction false} SelectJoins(b: Baseline, x: seq<string>, t: string, y: seq<string>)
    ensures Select(b, x + [t] + y) == Select(b, x) + (if Excluded(b, t) then [] else [t]) + Select(b, y)
  {
    if x == [] {
      assert ([] + [t] + y)[1..] == y && [] + [t] + y == [t] + y;
    } else {
      assert (x + [t] + y)[1..] == x[1..] + [t] + y;
      SelectJoins(b, x[1..], t, y);
    }
  }

  lemma {:induction false} PanelMembers(b: Baseline, tasks: seq<string>)
    ensures forall t :: t in Select(b, tasks) <==> t in tasks && !Excluded(b, t)
  {
    if tasks != [] { PanelMembers(b, tasks[1..]); }
  }

  lemma CertifiedByMore(w: World, audits: seq<Audit>, more: seq<Audit>, b: Baseline)
    requires Certified(w, audits, b) && audits <= more
    ensures Certified(w, more, b)
  {
    if b.certification.Some? { AllSoundByMore(w, audits, more, b, b.certification.value); }
  }

  lemma AllSoundByMore(w: World, audits: seq<Audit>, more: seq<Audit>, b: Baseline, cs: map<string, Certificate>)
    requires AllSound(w, audits, b, cs) && audits <= more
    ensures AllSound(w, more, b, cs)
  {
    forall t | t in cs ensures Sound(w, more, b, t, cs[t]) { SoundByMore(w, audits, more, b, t, cs[t]); }
  }

  lemma CertifiedWith(w: World, audits: seq<Audit>, b: Baseline, cs: map<string, Certificate>)
    requires cs.Keys == TaskSet(b.tasks) && AllSound(w, audits, b, cs)
    ensures Certified(w, audits, b.(certification := Some(cs)))
  {
  }

  lemma SoundByMore(w: World, audits: seq<Audit>, more: seq<Audit>, b: Baseline, t: string, c: Certificate)
    requires Sound(w, audits, b, t, c) && audits <= more
    ensures Sound(w, more, b, t, c)
  {
    if !c.verdict.NoChain? { BackedByMore(w, audits, more, b.identity, t, c.chainDigest, c.verdict); }
  }

  /** A certificate carries over to a run of the same identity whose chain has the same digest and no
      timeout. */
  lemma SoundCarriesOver(w: World, audits: seq<Audit>, from: Baseline, to: Baseline, t: string, c: Certificate)
    requires Sound(w, audits, from, t, c) && from.identity == to.identity
    requires c.chainDigest == ChainDigest(w, to.id, t) && !HasTimeout(RowsOf(w, to.id, t))
    ensures Sound(w, audits, to, t, c)
  {
  }

  /** The previous baseline's certificate of `t` may be taken over. */
  predicate Inheritable(w: World, b: Baseline, inherited: Option<Baseline>, t: string) {
    && inherited.Some? && inherited.value.certification.Some? && inherited.value.identity == b.identity
    && t in inherited.value.certification.value && !HasTimeout(RowsOf(w, b.id, t))
    && inherited.value.certification.value[t].chainDigest == ChainDigest(w, b.id, t)
  }

  /** The run left nothing to audit for `t`. */
  predicate NothingToAudit(w: World, b: Baseline, t: string) {
    w.chains(b.id, t) == None || HasTimeout(RowsOf(w, b.id, t))
  }

  /** What was taken over stays; everything else was audited, and has no chain to audit or a verdict. */
  ghost predicate Extends(w: World, b: Baseline, taken: map<string, Certificate>, all: map<string, Certificate>) {
    && (forall t :: t in taken ==> t in all && all[t] == taken[t])
    && forall t :: t in all && t !in taken ==> (all[t].verdict.NoChain? <==> NothingToAudit(w, b, t))
  }

  /** How a baseline's own certification settled one task. */
  predicate Settled(w: World, b: Baseline, inherited: Option<Baseline>, t: string, c: Certificate) {
    if Inheritable(w, b, inherited, t) then c == inherited.value.certification.value[t]
    else c.verdict.NoChain? <==> NothingToAudit(w, b, t)
  }

  ghost predicate AllSettled(w: World, b: Baseline, inherited: Option<Baseline>, all: map<string, Certificate>) {
    all.Keys == TaskSet(b.tasks) && forall t :: t in all ==> Settled(w, b, inherited, t, all[t])
  }

  /** The newest audit is of `t`, found nothing wrong, and was abandoned. */
  ghost predicate Abandoned(w: World, audits: seq<Audit>, b: Baseline, t: string) {
    && !NothingToAudit(w, b, t) && audits != []
    && var a := audits[|audits| - 1];
      a.run == b.id && a.identity == b.identity && a.task == t && a.rows == RowsOf(w, b.id, t) && Unrefuted(w.scrubber, a)
  }

  /** Every row re-executed so far matched. */
  ghost predicate Unrefuted(s: Scrubber, a: Audit) {
    |a.lives| <= |a.rows| && forall k :: 0 <= k < |a.lives| ==> Matches(s, a.rows[k], a.lives[k])
  }

  /** Some task could not be settled: nothing to inherit, a chain to audit, and its audit abandoned. */
  ghost predicate Unsettled(w: World, audits: seq<Audit>, b: Baseline, inherited: Option<Baseline>) {
    exists t :: t in b.tasks && !Inheritable(w, b, inherited, t) && Abandoned(w, audits, b, t)
  }

  lemma SettledByExtends(
    w: World, b: Baseline, inherited: Option<Baseline>, taken: map<string, Certificate>, all: map<string, Certificate>)
    requires all.Keys == TaskSet(b.tasks) && Extends(w, b, taken, all)
    requires forall t :: t in b.tasks ==> (t in taken <==> Inheritable(w, b, inherited, t))
    requires forall t :: t in taken ==> Inheritable(w, b, inherited, t) && taken[t] == inherited.value.certification.value[t]
    ensures AllSettled(w, b, inherited, all)
  {
    forall t | t in all ensures Settled(w, b, inherited, t, all[t]) {
      assert t in b.tasks;
    }
  }

  /** A task without a chain file stays in the panel in exactly one case: the previous baseline, of the same
      identity, has a deterministic certificate for it whose digest is that of no actions at all. */
  lemma MissingChainIff(
    w: World, b: Baseline, inherited: Option<Baseline>, all: map<string, Certificate>, t: string)
    requires AllSettled(w, b, inherited, all) && t in b.tasks && w.chains(b.id, t) == None
    ensures t in Panel(b.(certification := Some(all))) <==>
      && inherited.Some? && inherited.value.certification.Some? && inherited.value.identity == b.identity
      && t in inherited.value.certification.value
      && inherited.value.certification.value[t] == Certificate(w.digest([]), Deterministic)
  {
    var certified := b.(certification := Some(all));
    PanelMembers(certified, b.tasks);
    assert t in all && Settled(w, b, inherited, t, all[t]);
    assert Actions([]) == [];
  }

  // ------------------------------------------------------------ the auditor

  class Auditor {
    const w: World
    var store: map<nat, Baseline>
    ghost var audits: seq<Audit>

    constructor (w: World)
      ensures Valid() && this.w == w && store == map[] && audits == []
    {
      this.w, store, audits := w, map[], [];
    }

    /** The baselines certified so far: each has exactly its tasks certified, soundly. */
    ghost predicate Valid()
      reads this
    {
      forall id :: id in store ==> store[id].id == id && store[id].certification.Some? && Certified(w, audits, store[id])
    }

    /** `_check_task`: re-executes the chain on a fresh environment, up to the first row that does not match.
        None: the environment failed or a budget ran out, and the audit is abandoned. */
    method CheckTask(b: Baseline, t: string, rows: seq<Row>) returns (verdict: Option<Verdict>, a: Audit)
      requires !HasTimeout(rows)
      ensures a.run == b.id && a.task == t && a.identity == b.identity && a.rows == rows
      ensures if verdict.Some? then Reached(w.scrubber, a, verdict.value) else Unrefuted(w.scrubber, a)
    {
      a := Audit(b.id, t, b.identity, rows, []);
      var provisioned: bool := *;
      if !provisioned { return None, a; }
      var i := 0;
      while i < |rows|
        invariant i <= |rows| && a == Audit(b.id, t, b.identity, rows, a.lives) && |a.lives| == i
        invariant forall k :: 0 <= k < i ==> Matches(w.scrubber, rows[k], a.lives[k])
      {
        var live: Option<StepResult> := *;
        if live == None { return None, a; }
        a := a.(lives := a.lives + [live.value]);
        var same := CompareAction(rows[i], live.value);
        if !same { return Some(Forked), a; }
        i := i + 1;
      }
      verdict := Some(Deterministic);
    }

    /** `_compare_action`, given what the environment returned. */
    method CompareAction(row: Row, result: StepResult) returns (same: bool)
      ensures same == Matches(w.scrubber, row, result)
    {
      var command := if row.action.Run? then Some(row.action.run.command) else None;
      var live := ScrubResult(w.scrubber, result, command);
      if row.action.Run? { return row.evidence == AuditHash(ScrubbedHash(w.scrubber, live, command)); }
      same := row.evidence == Summary(live);
    }

    /** `check_one` of `_certify_tasks`. */
    method CertifyOne(b: Baseline, t: string) returns (c: Option<Certificate>)
      requires Valid()
      modifies this`audits
      ensures Valid() && old(audits) <= audits
      ensures c.Some? ==> Sound(w, audits, b, t, c.value)
      ensures c.Some? && w.chains(b.id, t) == Some([]) ==> c.value.verdict.Deterministic?
      ensures c.Some? ==> (c.value.verdict.NoChain? <==> NothingToAudit(w, b, t))
      ensures NothingToAudit(w, b, t) ==> c == Some(Certificate(ChainDigest(w, b.id, t), NoChain))
      ensures c == None ==> Abandoned(w, audits, b, t)
    {
      var file := w.chains(b.id, t);
      var chainDigest := w.digest(Actions(if file == None then [] else file.value));
      if file == None || (exists r :: r in file.value && r.timedOut) { return Some(Certificate(chainDigest, NoChain)); }
      var verdict, a := CheckTask(b, t, file.value);
      RecordAudit(a);
      if verdict == None { return None; }
      c := Some(Certificate(chainDigest, verdict.value));
      assert a in audits && Reached(w.scrubber, a, verdict.value);
      assert Backed(w, audits, b.identity, t, chainDigest, verdict.value);
    }

    ghost method RecordAudit(a: Audit)
      requires Valid()
      modifies this`audits
      ensures Valid() && audits == old(audits) + [a]
    {
      forall id | id in store ensures Certified(w, audits + [a], store[id]) {
        CertifiedByMore(w, audits, audits + [a], store[id]);
      }
      audits := audits + [a];
    }

    /** The certificates taken over from the previous epoch's baseline. */
    method Inherit(b: Baseline, inherited: Option<Baseline>) returns (taken: map<string, Certificate>)
      requires inherited.Some? ==> Certified(w, audits, inherited.value)
      ensures taken.Keys <= TaskSet(b.tasks)
      ensures AllSound(w, audits, b, taken)
      ensures forall t :: t in b.tasks ==> (t in taken <==> Inheritable(w, b, inherited, t))
      ensures forall t :: t in taken ==> Inheritable(w, b, inherited, t) && taken[t] == inherited.value.certification.value[t]
    {
      taken := map[];
      if inherited == None || inherited.value.certification == None || inherited.value.identity != b.identity { return; }
      var i := 0;
      while i < |b.tasks|
        invariant i <= |b.tasks| && taken.Keys <= TaskSet(b.tasks[..i])
        invariant forall t :: t in b.tasks[..i] ==> (t in taken <==> Inheritable(w, b, inherited, t))
        invariant forall t :: t in taken ==>
          Inheritable(w, b, inherited, t) && taken[t] == inherited.value.certification.value[t]
      {
        var t := b.tasks[i];
        assert b.tasks[..i + 1] == b.tasks[..i] + [t];
        if t in inherited.value.certification.value {
          var prior, file := inherited.value.certification.value[t], w.chains(b.id, t);
          var rows := if file == None then [] else file.value;
          if !(exists r :: r in rows && r.timedOut) && w.digest(Actions(rows)) == prior.chainDigest {
            taken := taken[t := prior];
          }
        }
        i := i + 1;
      }
      assert b.tasks[..i] == b.tasks;
      forall t | t in taken ensures Sound(w, audits, b, t, taken[t]) {
        assert Sound(w, audits, inherited.value, t, inherited.value.certification.value[t]);
        SoundCarriesOver(w, audits, inherited.value, b, t, taken[t]);
      }
    }

    /** One more certificate. */
    method CertifyNext(b: Baseline, t: string, ghost taken: map<string, Certificate>, got: map<string, Certificate>)
      returns (more: Option<map<string, Certificate>>)
      requires Valid() && AllSound(w, audits, b, got) && Extends(w, b, taken, got) && t !in got
      modifies this`audits
      ensures Valid() && old(audits) <= audits
      ensures more.Some? ==> more.value.Keys == got.Keys + {t}
      ensures more.Some? ==> AllSound(w, audits, b, more.value) && Extends(w, b, taken, more.value)
      ensures more == None ==> Abandoned(w, audits, b, t)
    {
      ghost var before := audits;
      var c := CertifyOne(b, t);
      if c == None { return None; }
      AllSoundByMore(w, before, audits, b, got);
      more := Some(got[t := c.value]);
    }

    /** The certificates of every task: taken over or audited. None: an audit was abandoned. */
    method CertifyAll(b: Baseline, taken: map<string, Certificate>) returns (all: Option<map<string, Certificate>>)
      requires Valid() && taken.Keys <= TaskSet(b.tasks) && AllSound(w, audits, b, taken)
      modifies this`audits
      ensures Valid() && old(audits) <= audits
      ensures all.Some? ==> Certified(w, audits, b.(certification := all)) && Extends(w, b, taken, all.value)
      ensures TaskSet(b.tasks) <= taken.Keys ==> all == Some(taken)
      ensures all == None ==> exists t :: t in b.tasks && t !in taken && Abandoned(w, audits, b, t)
    {
      hide Abandoned, NothingToAudit, Sound, Certified;
      var got, i := taken, 0;
      while i < |b.tasks|
        invariant i <= |b.tasks| && Valid() && old(audits) <= audits
        invariant got.Keys == taken.Keys + TaskSet(b.tasks[..i])
        invariant AllSound(w, audits, b, got) && Extends(w, b, taken, got)
        invariant TaskSet(b.tasks) <= taken.Keys ==> got == taken
      {
        var t := b.tasks[i];
        TaskSetPush(b.tasks, i);
        if t !in got {
          var more := CertifyNext(b, t, taken, got);
          if more == None { return None; }
          got := more.value;
        }
        i := i + 1;
      }
      assert b.tasks[..i] == b.tasks;
      CertifiedWith(w, audits, b, got);
      all := Some(got);
    }

    /** `exclude_nondeterministic_tasks`. A certified baseline keeps its certificates, so certifying it again
        gives the same panel. There is no panel only if an audit was abandoned, which leaves the store alone, or
        if the certificates exclude every task. */
    method ExcludeNondeterministic(b: Baseline, inherited: Option<Baseline>)
      returns (r: Option<(Baseline, seq<string>)>)
      requires Valid() && Certified(w, audits, b)
      requires inherited.Some? ==> Certified(w, audits, inherited.value)
      modifies this
      ensures Valid() && old(audits) <= audits
      ensures b.certification.Some? ==>
        r == (if Panel(b) == [] then None else Some((b, Panel(b)))) && audits == old(audits) && store == old(store)
      ensures b.certification == None && r.Some? ==>
        && Renewed(w, b, inherited, old(store), store)
        && r == Some((store[b.id], Panel(store[b.id]))) && r.value.1 != []
      ensures b.certification == None && r == None ==>
        || (store == old(store) && Unsettled(w, audits, b, inherited))
        || (Renewed(w, b, inherited, old(store), store) && Panel(store[b.id]) == [])
    {
      var certified := b;
      if b.certification == None {
        var taken := Inherit(b, inherited);
        var all := CertifyAll(b, taken);
        if all == None { return None; }
        SettledByExtends(w, b, inherited, taken, all.value);
        certified := b.(certification := all);
        store := store[b.id := certified];
      }
      var panel := Panel(certified);
      if panel == [] { return None; }
      r := Some((certified, panel));
    }
  }

  /** `b` goes on record, every task certified anew. */
  ghost predicate Renewed(
    w: World, b: Baseline, inherited: Option<Baseline>, before: map<nat, Baseline>, after: map<nat, Baseline>)
  {
    && b.id in after && after == before[b.id := after[b.id]]
    && after[b.id] == b.(certification := after[b.id].certification) && after[b.id].certification.Some?
    && AllSettled(w, b, inherited, after[b.id].certification.value)
  }

  // ------------------------------------------------------------ a session

  /** The record of a baseline, if it is certified already. */
  function Lookup(store: map<nat, Baseline>, found: Baseline): Baseline {
    if found.id in store then store[found.id] else found.(certification := None)
  }

  function Previous(handed: seq<(Baseline, seq<string>)>, e: nat): Option<Baseline>
    requires e <= |handed|
  {
    if e == 0 then None else Some(handed[e - 1].0)
  }

  /** Epoch `e` went on with the certified record of its baseline and the deterministic part of it. */
  ghost predicate HandedOn(store: map<nat, Baseline>, found: Baseline, h: (Baseline, seq<string>)) {
    found.id in store && h == (store[found.id], Panel(store[found.id])) && h.1 != []
  }

  /** A baseline seen for the first time was certified with the previous epoch's certificates to inherit. */
  ghost predicate FirstSeen(
    w: World, before: map<nat, Baseline>, found: seq<Baseline>, handed: seq<(Baseline, seq<string>)>, e: nat)
    requires e < |handed| <= |found|
  {
    found[e].id !in before && (forall k :: 0 <= k < e ==> found[k].id != found[e].id) ==>
      && handed[e].0 == found[e].(certification := handed[e].0.certification) && handed[e].0.certification.Some?
      && AllSettled(w, found[e].(certification := None), Previous(handed, e), handed[e].0.certification.value)
  }

  /** What the store and the panels handed on look like after the first epochs of a session that found `before`. */
  ghost predicate SessionOk(
    w: World, before: map<nat, Baseline>, store: map<nat, Baseline>, found: seq<Baseline>,
    handed: seq<(Baseline, seq<string>)>)
  {
    && |handed| <= |found| && Kept(before, store)
    && (forall e :: 0 <= e < |handed| ==> HandedOn(store, found[e], handed[e]))
    && (forall e :: 0 <= e < |handed| ==> FirstSeen(w, before, found, handed, e))
  }

  /** No record goes or changes. */
  ghost predicate Kept(before: map<nat, Baseline>, after: map<nat, Baseline>) {
    forall id :: id in before ==> id in after && after[id] == before[id]
  }

  /** Only baselines that were found went on record. */
  ghost predicate FromFound(before: map<nat, Baseline>, store: map<nat, Baseline>, found: seq<Baseline>, n: nat)
    requires n <= |found|
  {
    forall id :: id in store ==> id in before || exists e :: 0 <= e < n && found[e].id == id
  }

  lemma SessionKept(
    w: World, before: map<nat, Baseline>, store: map<nat, Baseline>, after: map<nat, Baseline>, found: seq<Baseline>,
    handed: seq<(Baseline, seq<string>)>)
    requires SessionOk(w, before, store, found, handed) && Kept(store, after)
    ensures SessionOk(w, before, after, found, handed)
  {
    forall e | 0 <= e < |handed| ensures HandedOn(after, found[e], handed[e]) {
      assert HandedOn(store, found[e], handed[e]);
    }
  }

  lemma SessionStarts(w: World, store: map<nat, Baseline>, found: seq<Baseline>)
    ensures SessionOk(w, store, store, found, []) && FromFound(store, store, found, 0)
  {
  }

  lemma SessionExtends(
    w: World, before: map<nat, Baseline>, store: map<nat, Baseline>, after: map<nat, Baseline>, found: seq<Baseline>,
    handed: seq<(Baseline, seq<string>)>, h: (Baseline, seq<string>))
    requires SessionOk(w, before, store, found, handed) && |handed| < |found|
    requires FromFound(before, store, found, |handed|)
    requires HandedOn(after, found[|handed|], h)
    requires var f := found[|handed|];
      if f.id in store then after == store
      else Renewed(w, f.(certification := None), Previous(handed, |handed|), store, after)
    ensures SessionOk(w, before, after, found, handed + [h]) && FromFound(before, after, found, |handed| + 1)
  {
    hide AllSettled, Panel;
    var now, f := handed + [h], found[|handed|];
    forall e | 0 <= e < |now| ensures FirstSeen(w, before, found, now, e) {
      if e < |handed| {
        assert FirstSeen(w, before, found, handed, e) && Previous(now, e) == Previous(handed, e);
      } else {
        assert Previous(now, e) == Previous(handed, e);
      }
    }
    SessionKept(w, before, store, after, found, handed);
  }

  /** Why an epoch cannot go on: all its tasks are excluded, or one could not be settled. */
  ghost predicate Stuck(w: World, audits: seq<Audit>, b: Baseline, inherited: Option<Baseline>) {
    if b.certification.Some? then Panel(b) == [] else Unsettled(w, audits, b, inherited)
  }

  /** Epoch after epoch, each baseline certified with the previous one to inherit from. Every panel handed on is
      the deterministic part of a soundly certified baseline, the same for the same baseline whenever it comes
      back, and the session stops early only at a baseline that is stuck. */
  method Epochs(auditor: Auditor, found: seq<Baseline>) returns (ghost handed: seq<(Baseline, seq<string>)>)
    requires auditor.Valid()
    modifies auditor
    ensures auditor.Valid()
    ensures SessionOk(auditor.w, old(auditor.store), auditor.store, found, handed)
    ensures |handed| < |found| ==>
      Stuck(auditor.w, auditor.audits, Lookup(auditor.store, found[|handed|]), Previous(handed, |handed|))
  {
    hide SessionOk, AllSettled, Panel;
    handed := [];
    var certified: Option<Baseline> := None;
    var epoch := 0;
    SessionStarts(auditor.w, auditor.store, found);
    while epoch < |found|
      invariant auditor.Valid() && |handed| == epoch <= |found|
      invariant certified == Previous(handed, epoch)
      invariant certified.Some? ==> Certified(auditor.w, auditor.audits, certified.value)
      invariant SessionOk(auditor.w, old(auditor.store), auditor.store, found, handed)
      invariant FromFound(old(auditor.store), auditor.store, found, epoch)
    {
      var b := Lookup(auditor.store, found[epoch]);
      ghost var store := auditor.store;
      var r := auditor.ExcludeNondeterministic(b, certified);
      if r == None {
        SessionKept(auditor.w, old(auditor.store), store, auditor.store, found, handed);
        return;
      }
      SessionExtends(auditor.w, old(auditor.store), store, auditor.store, found, handed, r.value);
      handed := handed + [r.value];
      certified := Some(r.value.0);
      epoch := epoch + 1;
    }
  }

  lemma EmptyChainCertified(w: World, t: string, identity: string, donor: Baseline)
    requires w.chains(0, t) == Some([])
    requires donor == Baseline(0, identity, [t], Some(map[t := Certificate(w.digest([]), Deterministic)]))
    ensures Certified(w, [Audit(0, t, identity, [], [])], donor)
  {
    var a := Audit(0, t, identity, [], []);
    assert Actions([]) == [] && Passed(w.scrubber, a) && a in [a];
    assert Backed(w, [a], identity, t, w.digest([]), Deterministic);
    assert Sound(w, [a], donor, t, donor.certification.value[t]);
  }

  /** A missing chain file passes for a chain of no actions. The first run's chain file is empty, and its audit,
      of nothing, passes; the second run left no chain file. However the second is settled, it stays in the panel;
      without the first it would be "no_chain" and out. */
  lemma MissingChainScenario(
    w: World, t: string, identity: string, donor: Baseline, second: Baseline, all: map<string, Certificate>)
    requires w.chains(0, t) == Some([]) && w.chains(1, t) == None
    requires donor == Baseline(0, identity, [t], Some(map[t := Certificate(w.digest([]), Deterministic)]))
    requires second == Baseline(1, identity, [t], None)
    ensures Passed(w.scrubber, Audit(0, t, identity, [], [])) && Certified(w, [Audit(0, t, identity, [], [])], donor)
    ensures Inheritable(w, second, Some(donor), t) && AllSettled(w, second, Some(donor), donor.certification.value)
    ensures AllSettled(w, second, Some(donor), all) ==> Panel(second.(certification := Some(all))) == [t]
    ensures AllSettled(w, second, None, all) ==> Panel(second.(certification := Some(all))) == []
  {
    EmptyChainCertified(w, t, identity, donor);
    assert Actions([]) == [];
    if AllSettled(w, second, Some(donor), all) { MissingChainIff(w, second, Some(donor), all, t); }
    if AllSettled(w, second, None, all) { MissingChainIff(w, second, None, all, t); }
    var certified := second.(certification := Some(all));
    assert certified.tasks == [t] && certified.tasks[1..] == [];
    PanelMembers(certified, certified.tasks);
    assert Select(certified, []) == [] && [t][1..] == [];
    assert Panel(certified) == if Excluded(certified, t) then [] else [t];
  }
}
