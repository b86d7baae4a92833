/** Overlapping evaluation runs (scripts/evaluate.py:138-198). A run may launch the next one from inside its
    own callbacks, so runs nest; the tails of the nested runs are mutable sets that `list.remove` compares by
    value. */
module Overlap {
  import opened EnvSteps

  /** A mutable set object. */
  class Tail {
    var tasks: set<string>

    constructor (tasks: set<string>)
      ensures this.tasks == tasks
    {
      this.tasks := tasks;
    }
  }

  // ------------------------------------------------------------ reordering

  function Keep(panel: seq<string>, conflicts: set<string>, conflicting: bool): seq<string> {
    if panel == [] then []
    else (if (panel[0] in conflicts) == conflicting then [panel[0]] else []) + Keep(panel[1..], conflicts, conflicting)
  }

  /** The panel handed to a run: conflict-free tasks first, each half in panel order. */
  function Ordered(panel: seq<string>, conflicts: set<string>): seq<string> {
    Keep(panel, conflicts, false) + Keep(panel, conflicts, true)
  }

  lemma {:induction false} KeptTasks(panel: seq<string>, conflicts: set<string>, inside: bool)
    ensures forall t :: t in Keep(panel, conflicts, inside) ==> (t in conflicts <==> inside)
  {
    if panel != [] { KeptTasks(panel[1..], conflicts, inside); }
  }

  lemma {:induction false} KeepJoins(a: seq<string>, b: seq<string>, conflicts: set<string>, inside: bool)
    ensures Keep(a + b, conflicts, inside) == Keep(a, conflicts, inside) + Keep(b, conflicts, inside)
  {
    if a == [] {
      assert a + b == b;
    } else {
      var rest := a[1..] + b;
      assert (a + b)[1..] == rest && (a + b)[0] == a[0];
      KeepJoins(a[1..], b, conflicts, inside);
      var head := if (a[0] in conflicts) == inside then [a[0]] else [];
      assert Keep(a + b, conflicts, inside) == head + Keep(rest, conflicts, inside);
    }
  }

  /** Where a kept task ends up. */
  lemma KeptAt(panel: seq<string>, conflicts: set<string>, i: nat)
    requires i < |panel|
    ensures var inside := panel[i] in conflicts; var at := |Keep(panel[..i], conflicts, inside)|;
      && at < |Keep(panel, conflicts, inside)| && Keep(panel, conflicts, inside)[at] == panel[i]
      && at < |Keep(panel[..i + 1], conflicts, inside)|
  {
    var inside := panel[i] in conflicts;
    var before, after := panel[..i], panel[i + 1..];
    assert panel == before + ([panel[i]] + after) && panel[..i + 1] == before + [panel[i]];
    assert ([panel[i]] + after)[1..] == after && [panel[i]][1..] == [];
    KeepJoins(before, [panel[i]] + after, conflicts, inside);
    KeepJoins(before, [panel[i]], conflicts, inside);
  }

  /** The panel that is handed on: a permutation, no conflicting task before one that is not, and otherwise in panel
      order. */
  lemma {:induction false} OrderedIsPartition(panel: seq<string>, conflicts: set<string>)
    ensures multiset(Ordered(panel, conflicts)) == multiset(panel)
    ensures var o := Ordered(panel, conflicts);
      forall i, j :: 0 <= i < j < |o| && o[i] in conflicts ==> o[j] in conflicts
  {
    KeptTasks(panel, conflicts, false);
    KeptTasks(panel, conflicts, true);
    KeepsAll(panel, conflicts);
    var free := Keep(panel, conflicts, false);
    forall i | 0 <= i < |Ordered(panel, conflicts)| ensures Ordered(panel, conflicts)[i] in conflicts <==> i >= |free| {
      assert i < |free| ==> free[i] in free;
      assert i >= |free| ==> Keep(panel, conflicts, true)[i - |free|] in Keep(panel, conflicts, true);
    }
  }

  lemma KeptInOrder(panel: seq<string>, conflicts: set<string>, i: nat, j: nat)
    requires i < j <= |panel|
    ensures var inside := panel[i] in conflicts;
      |Keep(panel[..i], conflicts, inside)| < |Keep(panel[..j], conflicts, inside)|
  {
    KeptAt(panel[..j], conflicts, i);
    assert panel[..j][..i] == panel[..i];
  }

  /** Two tasks that both conflict, or both do not, stay in panel order. */
  lemma OrderedIsStable(panel: seq<string>, conflicts: set<string>, i: nat, j: nat) returns (m: nat, n: nat)
    requires i < j < |panel| && (panel[i] in conflicts <==> panel[j] in conflicts)
    ensures m < n < |Ordered(panel, conflicts)|
    ensures Ordered(panel, conflicts)[m] == panel[i] && Ordered(panel, conflicts)[n] == panel[j]
  {
    hide Keep;
    var inside := panel[i] in conflicts;
    KeptAt(panel, conflicts, i);
    KeptAt(panel, conflicts, j);
    KeptInOrder(panel, conflicts, i, j);
    var free := Keep(panel, conflicts, false);
    m, n := |Keep(panel[..i], conflicts, inside)|, |Keep(panel[..j], conflicts, inside)|;
    if inside { m, n := |free| + m, |free| + n; }
  }

  lemma {:induction false} KeepsAll(panel: seq<string>, conflicts: set<string>)
    ensures multiset(Keep(panel, conflicts, false) + Keep(panel, conflicts, true)) == multiset(panel)
  {
    if panel != [] {
      KeepsAll(panel[1..], conflicts);
      assert panel == [panel[0]] + panel[1..];
      var inside := panel[0] in conflicts;
      assert Keep(panel, conflicts, inside) == [panel[0]] + Keep(panel[1..], conflicts, inside);
      assert Keep(panel, conflicts, !inside) == Keep(panel[1..], conflicts, !inside);
    }
  }

  // ------------------------------------------------------------ tails on the stack and in the list

  function Union(tails: seq<Tail>): set<string>
    reads tails
  {
    if tails == [] then {} else Union(tails[..|tails| - 1]) + tails[|tails| - 1].tasks
  }

  /** The tails that still hold a task, in order. */
  function Nonempty(tails: seq<Tail>): seq<Tail>
    reads tails
  {
    if tails == [] then []
    else Nonempty(tails[..|tails| - 1]) + if tails[|tails| - 1].tasks == {} then [] else [tails[|tails| - 1]]
  }

  ghost predicate Distinct(tails: seq<Tail>) {
    tails != [] ==> tails[|tails| - 1] !in tails[..|tails| - 1] && Distinct(tails[..|tails| - 1])
  }

  lemma {:induction false} DistinctAt(tails: seq<Tail>, i: nat, j: nat)
    requires Distinct(tails) && i < j < |tails|
    ensures tails[i] != tails[j]
  {
    var init := tails[..|tails| - 1];
    if j < |init| { DistinctAt(init, i, j); } else { assert init[i] == tails[i]; }
  }

  /** The list stands for the runs on the call stack: the same unfinished tails in the same order, and as many
      finished ones. */
  ghost predicate Represents(active: seq<Tail>, stack: seq<Tail>)
    reads active, stack
  {
    |active| == |stack| && Nonempty(active) == Nonempty(stack)
  }

  /** The first position whose set equals `value`, as `list.remove` finds it. */
  function FirstEqual(tails: seq<Tail>, value: set<string>): (i: Option<nat>)
    reads tails
    ensures match i
      case Some(k) => k < |tails| && tails[k].tasks == value && forall j :: 0 <= j < k ==> tails[j].tasks != value
      case None => forall j :: 0 <= j < |tails| ==> tails[j].tasks != value
  {
    if tails == [] then None
    else
      var earlier := FirstEqual(tails[..|tails| - 1], value);
      if earlier.Some? then earlier
      else if tails[|tails| - 1].tasks == value then Some(|tails| - 1) else None
  }

  function Without(tails: seq<Tail>, i: nat): seq<Tail>
    requires i < |tails|
  {
    tails[..i] + tails[i + 1..]
  }

  lemma {:induction false} NonemptyOfConcat(a: seq<Tail>, b: seq<Tail>)
    ensures Nonempty(a + b) == Nonempty(a) + Nonempty(b)
  {
    if b == [] {
      assert a + b == a;
    } else {
      assert (a + b)[..|a + b| - 1] == a + b[..|b| - 1];
      NonemptyOfConcat(a, b[..|b| - 1]);
    }
  }

  lemma {:induction false} NonemptyMembers(tails: seq<Tail>)
    ensures forall t :: t in Nonempty(tails) <==> t in tails && t.tasks != {}
    ensures forall i :: 0 <= i < |Nonempty(tails)| ==> Nonempty(tails)[i] in tails
    ensures |Nonempty(tails)| <= |tails|
    ensures |Nonempty(tails)| == |tails| <==> forall t :: t in tails ==> t.tasks != {}
  {
    if tails != [] {
      NonemptyMembers(tails[..|tails| - 1]);
      assert tails == tails[..|tails| - 1] + [tails[|tails| - 1]];
    }
  }

  lemma {:induction false} UnionMembers(tails: seq<Tail>)
    ensures forall x :: x in Union(tails) <==> exists t :: t in tails && x in t.tasks
  {
    if tails != [] {
      UnionMembers(tails[..|tails| - 1]);
      assert tails == tails[..|tails| - 1] + [tails[|tails| - 1]];
    }
  }

  /** Conflicts computed from a representing list are the unfinished tasks of the runs on the stack. */
  lemma ConflictsAreOpenTasks(active: seq<Tail>, stack: seq<Tail>)
    requires Nonempty(active) == Nonempty(stack)
    ensures Union(active) == Union(stack)
  {
    UnionMembers(active);
    UnionMembers(stack);
    NonemptyMembers(active);
    NonemptyMembers(stack);
    forall x ensures x in Union(active) <==> x in Union(stack) {
      if x in Union(active) {
        var t :| t in active && x in t.tasks;
        assert t in Nonempty(stack);
      }
      if x in Union(stack) {
        var t :| t in stack && x in t.tasks;
        assert t in Nonempty(active);
      }
    }
  }

  predicate Masked(stack: seq<Tail>)
    requires stack != []
    reads stack
  {
    var last := stack[|stack| - 1];
    last.tasks != {} && exists i :: 0 <= i < |stack| - 1 && stack[i].tasks == last.tasks
  }

  lemma NonemptyOfOne(t: Tail)
    ensures Nonempty([t]) == if t.tasks == {} then [] else [t]
  {
    assert [t][..0] == [];
  }

  lemma NonemptyAround(before: seq<Tail>, t: Tail, after: seq<Tail>)
    ensures Nonempty(before + after) == Nonempty(before) + Nonempty(after)
    ensures t.tasks == {} ==> Nonempty(before + [t] + after) == Nonempty(before) + Nonempty(after)
    ensures t.tasks != {} ==> Nonempty(before + [t] + after) == Nonempty(before) + [t] + Nonempty(after)
  {
    NonemptyOfConcat(before, after);
    NonemptyOfConcat(before + [t], after);
    NonemptyOfConcat(before, [t]);
    NonemptyOfOne(t);
  }

  /** Removing the ending run's tail by value is possible, and leaves a list that stands for the remaining
      runs, if and only if that tail is empty or no enclosing run has an equal one. */
  lemma RemovalIff(active: seq<Tail>, stack: seq<Tail>)
    requires Represents(active, stack) && stack != [] && Distinct(stack)
    ensures FirstEqual(active, stack[|stack| - 1].tasks).Some?
    ensures Represents(Without(active, FirstEqual(active, stack[|stack| - 1].tasks).value), stack[..|stack| - 1])
      <==> !Masked(stack)
  {
    SomeEqual(active, stack);
    var u, rest := stack[|stack| - 1], stack[..|stack| - 1];
    var i := FirstEqual(active, u.tasks).value;
    assert active == active[..i] + [active[i]] + active[i + 1..];
    NonemptyAround(active[..i], active[i], active[i + 1..]);
    if u.tasks != {} {
      var x, y := Nonempty(active[..i]), Nonempty(active[i + 1..]);
      NonemptyMembers(rest);
      if Masked(stack) {
        var k :| 0 <= k < |stack| - 1 && stack[k].tasks == u.tasks;
        assert rest[k] == stack[k];
        NoneEarlier(active, i, u.tasks);
        WrongOneGoes(x, active[i], y, Nonempty(rest), u, rest[k]);
      } else {
        NoneEarlier(stack, |rest|, u.tasks);
        RightOneGoes(x, active[i], y, Nonempty(rest), u);
      }
    }
  }

  lemma NoneEarlier(active: seq<Tail>, i: nat, value: set<string>)
    requires i <= |active| && forall j :: 0 <= j < i ==> active[j].tasks != value
    ensures forall t :: t in Nonempty(active[..i]) ==> t.tasks != value
  {
    NonemptyMembers(active[..i]);
    forall t | t in Nonempty(active[..i]) ensures t.tasks != value {
      var m :| 0 <= m < |Nonempty(active[..i])| && Nonempty(active[..i])[m] == t;
      var k :| 0 <= k < i && active[..i][k] == t;
      assert active[k] == t;
    }
  }

  lemma SomeEqual(active: seq<Tail>, stack: seq<Tail>)
    requires Represents(active, stack) && stack != []
    ensures FirstEqual(active, stack[|stack| - 1].tasks).Some?
  {
    var u := stack[|stack| - 1];
    NonemptyMembers(active);
    NonemptyMembers(stack);
    if u.tasks != {} {
      assert u in Nonempty(stack);
    } else {
      assert u in stack;
    }
  }

  lemma RightOneGoes(x: seq<Tail>, w: Tail, y: seq<Tail>, rest: seq<Tail>, u: Tail)
    requires x + [w] + y == rest + [u] && u !in rest
    requires w.tasks == u.tasks && forall t :: t in rest ==> t.tasks != u.tasks
    ensures x + y == rest
  {
    var all := rest + [u];
    assert all[|x|] == w;
    assert w in all;
    assert forall k :: 0 <= k < |rest| ==> all[k] == rest[k];
    assert |x| == |rest|;
    assert y == [];
    assert x == (x + [w] + y)[..|x|] == all[..|x|] == rest;
  }

  lemma WrongOneGoes(x: seq<Tail>, w: Tail, y: seq<Tail>, left: seq<Tail>, u: Tail, twin: Tail)
    requires x + [w] + y == left + [u] && u !in left
    requires forall t :: t in x ==> t.tasks != u.tasks
    requires twin in left && twin.tasks == u.tasks
    ensures x + y != left
  {
    var p :| 0 <= p < |left| && left[p] == twin;
    var all := left + [u];
    assert all[p] == twin;
    assert forall k :: 0 <= k < |x| ==> all[k] == x[k];
    assert |x| <= p;
    assert (x + y)[|left| - 1] == all[|left|] == u;
  }

  // ------------------------------------------------------------ the launcher

  /** What a run's worker reports to its observer. */
  datatype Event = Started | TaskFinished(task: string) | Otherwise

  /** How `_evaluate` ends once the worker has reported everything. */
  datatype Ending = Completed | MeasurementFailed | Raises

  /** A run with what its worker will do: the reports, any at all, and the ending. */
  datatype Scheduled = Scheduled(panel: seq<string>, concurrency: int, events: seq<Event>, ending: Ending)

  function PanelSet(run: Scheduled): set<string> { set t | t in run.panel }

  /** The tasks still open after the first `n` reports. */
  function Remaining(run: Scheduled, n: nat): set<string>
    requires n <= |run.events|
  {
    if n == 0 then PanelSet(run)
    else Remaining(run, n - 1) - if run.events[n - 1].TaskFinished? then {run.events[n - 1].task} else {}
  }

  /** The tasks the worker never reported. */
  function Leftover(run: Scheduled): set<string> { Remaining(run, |run.events|) }

  /** One of the first `n` reports names a task that is not open. */
  predicate Misnames(run: Scheduled, n: nat)
    requires n <= |run.events|
  {
    n > 0 && (Misnames(run, n - 1)
              || (run.events[n - 1].TaskFinished? && run.events[n - 1].task !in Remaining(run, n - 1)))
  }

  /** Something other than a measurement failure leaves the run: the worker names a task that is not open, or
      the evaluation raises. */
  predicate Raising(run: Scheduled) {
    run.ending.Raises? || Misnames(run, |run.events|)
  }

  predicate SomeRaises(runs: seq<Scheduled>) {
    exists k :: 0 <= k < |runs| && Raising(runs[k])
  }

  /** The report, among the first `n`, at which a run first leaves room for the next one; a report of a task that
      is not open ends the run before that. */
  function LaunchAt(run: Scheduled, n: nat): (r: Option<nat>)
    requires n <= |run.events|
    ensures r.Some? ==> r.value < n
  {
    if n == 0 then None
    else if LaunchAt(run, n - 1).Some? then LaunchAt(run, n - 1)
    else if !Misnames(run, n) && LeavesRoom(run, n) then Some(n - 1) else None
  }

  /** After `n` reports, the last of which prompts the question, fewer tasks are open than may run at once. */
  predicate LeavesRoom(run: Scheduled, n: nat)
    requires 0 < n <= |run.events|
  {
    !run.events[n - 1].Otherwise? && |Remaining(run, n)| < run.concurrency
  }

  /** A task is open until it is reported finished. */
  lemma {:induction false} OpenUntilReported(run: Scheduled, n: nat, t: string)
    requires n <= |run.events|
    ensures t in Remaining(run, n) <==> t in run.panel && forall k :: 0 <= k < n ==> run.events[k] != TaskFinished(t)
  {
    if n > 0 { OpenUntilReported(run, n - 1, t); }
  }

  /** After report `m`, the run's start or a finished task, a worker is idle; and every report up to it named a task
      that was open. */
  ghost predicate IdleAfter(run: Scheduled, m: nat)
    requires m < |run.events|
  {
    && run.events[m] != Otherwise && |Remaining(run, m + 1)| < run.concurrency
    && forall k :: 0 <= k <= m && run.events[k].TaskFinished? ==> run.events[k].task in Remaining(run, k)
  }

  lemma {:induction false} NamesOpenTasks(run: Scheduled, n: nat)
    requires n <= |run.events|
    ensures Misnames(run, n) <==>
      exists k :: 0 <= k < n && run.events[k].TaskFinished? && run.events[k].task !in Remaining(run, k)
  {
    if n > 0 { NamesOpenTasks(run, n - 1); }
  }

  lemma IdleIff(run: Scheduled, n: nat)
    requires 0 < n <= |run.events|
    ensures !Misnames(run, n) && LeavesRoom(run, n) <==> IdleAfter(run, n - 1)
  {
    NamesOpenTasks(run, n);
  }

  lemma LaunchStep(run: Scheduled, n: nat)
    requires n <= |run.events|
    ensures n == 0 ==> LaunchAt(run, n) == None
    ensures n > 0 && LaunchAt(run, n - 1).Some? ==> LaunchAt(run, n) == LaunchAt(run, n - 1)
    ensures n > 0 && LaunchAt(run, n - 1) == None ==> LaunchAt(run, n) == if IdleAfter(run, n - 1) then Some(n - 1) else None
  {
    hide IdleAfter, Misnames, LeavesRoom;
    if n > 0 { IdleIff(run, n); }
  }

  ghost predicate NeverIdle(run: Scheduled, n: nat)
    requires n <= |run.events|
  {
    forall k :: 0 <= k < n ==> !IdleAfter(run, k)
  }

  /** The next run is launched from inside this one as soon as a worker is idle, and not before. */
  lemma {:induction false} LaunchesWhenIdle(run: Scheduled, n: nat)
    requires n <= |run.events|
    ensures match LaunchAt(run, n)
      case Some(m) => m < n && IdleAfter(run, m) && NeverIdle(run, m)
      case None => NeverIdle(run, n)
  {
    hide IdleAfter, LaunchAt;
    LaunchStep(run, n);
    if n > 0 { LaunchesWhenIdle(run, n - 1); }
  }

  /** What report `i` of a run changes, as far as the next one goes. */
  lemma AfterReport(run: Scheduled, i: nat)
    requires i < |run.events|
    ensures LaunchAt(run, i).Some? ==> LaunchAt(run, i + 1).Some?
    ensures var launches := !Misnames(run, i + 1) && !run.events[i].Otherwise? && |Remaining(run, i + 1)| < run.concurrency;
      LaunchAt(run, i) == None ==>
        (LaunchAt(run, i + 1).Some? <==> launches) && (launches ==> HoldsOpen(run, Remaining(run, i + 1)))
  {
    if LaunchAt(run, i + 1).Some? { LaunchStays(run, i + 1, |run.events|); }
  }

  lemma RaisedThere(run: Scheduled, n: nat, launched: bool)
    requires n <= |run.events| && launched == LaunchAt(run, n).Some? && (launched || Misnames(run, n))
    ensures launched == Nests(run) && (Misnames(run, n) ==> Raising(run))
  {
    LaunchStays(run, n, |run.events|);
    if Misnames(run, n) { MisnamesStays(run, n, |run.events|); }
  }

  /** The next run is launched inside this one. */
  predicate Nests(run: Scheduled) { LaunchAt(run, |run.events|).Some? }

  /** What the run has open while later runs run inside it. */
  function OpenAtLaunch(run: Scheduled): set<string>
    requires Nests(run)
  {
    Remaining(run, LaunchAt(run, |run.events|).value + 1)
  }

  /** The run raises without having launched the next one. */
  predicate Stops(run: Scheduled) { Raising(run) && !Nests(run) }

  /** How many runs are launched, `n` of them so far. */
  function StopAt(runs: seq<Scheduled>, n: nat): (r: nat)
    requires n <= |runs|
    ensures n <= r <= |runs|
    decreases |runs| - n
  {
    if n == |runs| then n else if Stops(runs[n]) then n + 1 else StopAt(runs, n + 1)
  }

  lemma StopSteps(runs: seq<Scheduled>, n: nat)
    requires n < |runs|
    ensures StopAt(runs, n) == if Raising(runs[n]) && !Nests(runs[n]) then n + 1 else StopAt(runs, n + 1)
  {
  }

  lemma {:induction false} NothingStops(runs: seq<Scheduled>, n: nat)
    requires n <= |runs| && !SomeRaises(runs)
    ensures StopAt(runs, n) == |runs|
    decreases |runs| - n
  {
    if n < |runs| { NothingStops(runs, n + 1); }
  }

  /** If a run raises, some launched one does. */
  lemma {:induction false} FirstRaiseIsLaunched(runs: seq<Scheduled>, n: nat, k: nat) returns (i: nat)
    requires n <= k < |runs| && Raising(runs[k])
    ensures n <= i < StopAt(runs, n) && Raising(runs[i])
    decreases k - n
  {
    if Raising(runs[n]) { i := n; } else { i := FirstRaiseIsLaunched(runs, n + 1, k); }
  }

  predicate HoldsOpen(run: Scheduled, tasks: set<string>) { Nests(run) && OpenAtLaunch(run) == tasks }

  /** One of the first `n` runs nests and has just these tasks open meanwhile. */
  predicate HeldBefore(runs: seq<Scheduled>, n: nat, tasks: set<string>)
    requires n <= |runs|
  {
    n > 0 && (HeldBefore(runs, n - 1, tasks) || HoldsOpen(runs[n - 1], tasks))
  }

  /** Run `k` ends with unreported tasks, and they are just the tasks that an enclosing run has open. */
  predicate ClashesAt(runs: seq<Scheduled>, k: nat)
    requires k < |runs|
  {
    Leftover(runs[k]) != {} && HeldBefore(runs, k, Leftover(runs[k]))
  }

  predicate SomeClash(runs: seq<Scheduled>) {
    exists k :: 0 <= k < |runs| && ClashesAt(runs, k)
  }

  /** The tasks that the first `n` runs have open when the next one is launched. */
  function OpenBefore(runs: seq<Scheduled>, n: nat): set<string>
    requires n <= |runs|
  {
    if n == 0 then {} else OpenBefore(runs, n - 1) + if Nests(runs[n - 1]) then OpenAtLaunch(runs[n - 1]) else {}
  }

  lemma {:induction false} LaunchStays(run: Scheduled, n: nat, m: nat)
    requires n <= m <= |run.events| && (LaunchAt(run, n).Some? || Misnames(run, n))
    ensures LaunchAt(run, m) == LaunchAt(run, n)
  {
    if n < m {
      LaunchStays(run, n, m - 1);
      if Misnames(run, n) { MisnamesStays(run, n, m); }
    }
  }

  lemma {:induction false} MisnamesStays(run: Scheduled, n: nat, m: nat)
    requires n <= m <= |run.events| && Misnames(run, n)
    ensures Misnames(run, m)
  {
    if n < m { MisnamesStays(run, n, m - 1); }
  }

  predicate SamePanel(order: seq<string>, panel: seq<string>) {
    multiset(order) == multiset(panel)
  }

  /** Run `k` has ended, or fewer of its tasks are open than it may run at once. */
  ghost predicate MayFollow(runs: seq<Scheduled>, tails: seq<Tail>, ended: set<nat>, k: nat)
    requires k < |tails| && k < |runs|
    reads tails
  {
    k in ended || |tails[k].tasks| < runs[k].concurrency
  }

  ghost predicate History(runs: seq<Scheduled>, orders: seq<seq<string>>, tails: seq<Tail>, ended: set<nat>)
    reads tails
  {
    && |orders| == |tails| <= |runs|
    && (forall k :: 0 <= k < |orders| ==> SamePanel(orders[k], runs[k].panel))
    && (forall k :: 0 <= k < |tails| - 1 ==> MayFollow(runs, tails, ended, k))
  }

  lemma HistoryExtends(
    runs: seq<Scheduled>, orders: seq<seq<string>>, tails: seq<Tail>, ended: set<nat>, tail: Tail, conflicts: set<string>)
    requires History(runs, orders, tails, ended) && |tails| < |runs|
    requires tails != [] ==> MayFollow(runs, tails, ended, |tails| - 1)
    ensures History(runs, orders + [Ordered(runs[|tails|].panel, conflicts)], tails + [tail], ended)
  {
    OrderedIsPartition(runs[|tails|].panel, conflicts);
    var tails' := tails + [tail];
    forall k | 0 <= k < |tails'| - 1 ensures MayFollow(runs, tails', ended, k) {
      assert MayFollow(runs, tails, ended, k) && tails'[k] == tails[k];
    }
  }

  lemma HistoryEnds(runs: seq<Scheduled>, orders: seq<seq<string>>, tails: seq<Tail>, ended: set<nat>, k: nat)
    requires History(runs, orders, tails, ended)
    ensures History(runs, orders, tails, ended + {k})
  {
    forall i | 0 <= i < |tails| - 1 ensures MayFollow(runs, tails, ended + {k}, i) {
      assert MayFollow(runs, tails, ended, i);
    }
  }

  /** Shrinking a tail keeps a list standing for a stack. */
  method Discard(tail: Tail, task: string, ghost active: seq<Tail>, ghost stack: seq<Tail>)
    modifies tail
    ensures tail.tasks == old(tail.tasks) - {task}
    ensures old(Represents(active, stack)) ==> Represents(active, stack)
  {
    ghost var live := set t | t in active + stack && t.tasks != {};
    RepresentsByFilter(active, stack, live);
    tail.tasks := tail.tasks - {task};
    FilterDrops(active, live, tail);
    FilterDrops(stack, live, tail);
    RepresentsByFilter(active, stack, if tail.tasks == {} then live - {tail} else live);
  }

  ghost predicate OnStack(stack: seq<Tail>, tails: seq<Tail>) {
    Distinct(stack) && Distinct(tails) && forall i :: 0 <= i < |stack| ==> stack[i] in tails
  }

  lemma OnStackExtends(stack: seq<Tail>, tails: seq<Tail>, tail: Tail)
    requires OnStack(stack, tails) && tail !in tails
    ensures OnStack(stack + [tail], tails + [tail])
  {
    forall i | 0 <= i < |stack + [tail]| ensures (stack + [tail])[i] in tails + [tail] {
      if i < |stack| { assert stack[i] in tails; }
    }
  }

  /** Between two launches the call stack holds exactly the launched runs that nest, each with the tasks it had
      open when it launched the next one. */
  predicate StackOf(runs: seq<Scheduled>, tails: seq<Tail>, stack: seq<Tail>)
    requires |tails| <= |runs|
    reads tails
  {
    if tails == [] then stack == []
    else
      var n := |tails| - 1;
      if !Nests(runs[n]) then StackOf(runs, tails[..n], stack)
      else
        && stack != [] && stack[|stack| - 1] == tails[n] && tails[n].tasks == OpenAtLaunch(runs[n])
        && StackOf(runs, tails[..n], stack[..|stack| - 1])
  }

  lemma StackOfPush(runs: seq<Scheduled>, before: seq<Tail>, outer: seq<Tail>, tail: Tail)
    requires |before| < |runs| && StackOf(runs, before, outer)
    ensures !Nests(runs[|before|]) ==> StackOf(runs, before + [tail], outer)
    ensures HoldsOpen(runs[|before|], tail.tasks) ==> StackOf(runs, before + [tail], outer + [tail])
  {
    assert (before + [tail])[..|before|] == before && (outer + [tail])[..|outer|] == outer;
  }

  lemma {:induction false} OpenOnStack(runs: seq<Scheduled>, tails: seq<Tail>, stack: seq<Tail>)
    requires |tails| <= |runs| && StackOf(runs, tails, stack)
    ensures Union(stack) == OpenBefore(runs, |tails|)
  {
    if tails != [] {
      var n := |tails| - 1;
      OpenOnStack(runs, tails[..n], if Nests(runs[n]) then stack[..|stack| - 1] else stack);
    }
  }

  /** Tasks are a tail on the stack exactly when some launched run has them open. */
  lemma {:induction false} HeldOnStack(runs: seq<Scheduled>, tails: seq<Tail>, stack: seq<Tail>, v: set<string>)
    requires |tails| <= |runs| && StackOf(runs, tails, stack)
    ensures HeldBefore(runs, |tails|, v) <==> Holds(stack, v)
  {
    if tails != [] {
      var n := |tails| - 1;
      HeldOnStack(runs, tails[..n], if Nests(runs[n]) then stack[..|stack| - 1] else stack, v);
      if Nests(runs[n]) { HoldsPush(stack, v); }
    }
  }

  predicate Holds(stack: seq<Tail>, v: set<string>)
    reads stack
  {
    exists j :: 0 <= j < |stack| && stack[j].tasks == v
  }

  lemma HoldsPush(stack: seq<Tail>, v: set<string>)
    requires stack != []
    ensures Holds(stack, v) <==> Holds(stack[..|stack| - 1], v) || stack[|stack| - 1].tasks == v
  {
    var init := stack[..|stack| - 1];
    if Holds(init, v) {
      var j :| 0 <= j < |init| && init[j].tasks == v;
      assert stack[j].tasks == v;
    }
    if j :| 0 <= j < |stack| && stack[j].tasks == v { assert j == |stack| - 1 || init[j].tasks == v; }
  }

  lemma MaskedIff(outer: seq<Tail>, tail: Tail)
    ensures Masked(outer + [tail]) <==> tail.tasks != {} && Holds(outer, tail.tasks)
  {
    var stack := outer + [tail];
    if j :| 0 <= j < |outer| && outer[j].tasks == tail.tasks { assert stack[j].tasks == tail.tasks; }
    if j :| 0 <= j < |stack| - 1 && stack[j].tasks == tail.tasks { assert outer[j].tasks == tail.tasks; }
  }

  /** Every launched run has ended or is on the stack. */
  ghost predicate Covered(stack: seq<Tail>, tails: seq<Tail>, ended: set<nat>) {
    forall k :: 0 <= k < |tails| ==> k in ended || tails[k] in stack
  }

  lemma CoveredEnds(stack: seq<Tail>, tails: seq<Tail>, ended: set<nat>, k: nat)
    requires k < |tails| && Covered(stack + [tails[k]], tails, ended) && Distinct(tails)
    ensures Covered(stack, tails, ended + {k})
  {
    forall j | 0 <= j < |tails| ensures j in ended + {k} || tails[j] in stack {
      if j < k { DistinctAt(tails, j, k); }
      if k < j { DistinctAt(tails, k, j); }
    }
  }

  lemma CoveredPush(stack: seq<Tail>, tails: seq<Tail>, ended: set<nat>, tail: Tail)
    requires Covered(stack, tails, ended)
    ensures Covered(stack + [tail], tails + [tail], ended)
  {
    forall j | 0 <= j < |tails + [tail]| ensures j in ended || (tails + [tail])[j] in stack + [tail] {
      if j < |tails| { assert j in ended || tails[j] in stack; }
    }
  }

  /** What has gone wrong so far, and that it can be told from the runs: runs that raise are seen to raise, and
      runs that clash are seen to clash. */
  ghost predicate Account(runs: seq<Scheduled>, ended: set<nat>, clashed: bool, escaped: bool) {
    && (clashed ==> SomeRaises(runs) || SomeClash(runs))
    && (escaped ==> clashed || SomeRaises(runs))
    && forall k :: k in ended ==> EndedWell(runs, k, clashed, escaped)
  }

  ghost predicate EndedWell(runs: seq<Scheduled>, k: nat, clashed: bool, escaped: bool) {
    k < |runs| && (!escaped ==> !Raising(runs[k]) && (!clashed ==> !ClashesAt(runs, k)))
  }

  lemma AccountRaise(runs: seq<Scheduled>, ended: set<nat>, clashed: bool, escaped: bool, k: nat)
    requires k < |runs| && Account(runs, ended, clashed, escaped) && (escaped || Raising(runs[k]))
    ensures Account(runs, ended, clashed, true)
  {
    forall i | i in ended ensures EndedWell(runs, i, clashed, true) { assert EndedWell(runs, i, clashed, escaped); }
  }

  /** Run `k` ends with `open` in its tail: a clash then is one that the runs foretell. */
  lemma AccountEnd(
    runs: seq<Scheduled>, ended: set<nat>, clashed: bool, escaped: bool, k: nat, open: set<string>,
    masked: bool, clashed': bool, escaped': bool)
    requires k < |runs| && Account(runs, ended, clashed, escaped)
    requires escaped || (!Raising(runs[k]) && open == Leftover(runs[k]))
    requires masked <==> open != {} && HeldBefore(runs, k, open)
    requires clashed' == (clashed || masked) && (escaped ==> escaped') && (escaped' ==> escaped || clashed)
    ensures Account(runs, ended + {k}, clashed', escaped')
  {
    assert !escaped && masked ==> ClashesAt(runs, k);
    forall i | i in ended ensures EndedWell(runs, i, clashed', escaped') { assert EndedWell(runs, i, clashed, escaped); }
    assert EndedWell(runs, k, clashed', escaped');
  }

  ghost predicate Planned(runs: seq<Scheduled>, orders: seq<seq<string>>) {
    |orders| <= |runs| && forall k :: 0 <= k < |orders| ==> PlannedAt(runs, k, orders[k])
  }

  predicate PlannedAt(runs: seq<Scheduled>, k: nat, order: seq<string>)
    requires k < |runs|
  {
    order == Ordered(runs[k].panel, OpenBefore(runs, k))
  }

  lemma PlannedExtends(runs: seq<Scheduled>, orders: seq<seq<string>>, order: seq<string>)
    requires Planned(runs, orders) && |orders| < |runs| && PlannedAt(runs, |orders|, order)
    ensures Planned(runs, orders + [order])
  {
    var more := orders + [order];
    forall k | 0 <= k < |more| ensures PlannedAt(runs, k, more[k]) {
      if k < |orders| { assert PlannedAt(runs, k, orders[k]); }
    }
  }

  /** The bookkeeping at one moment. */
  datatype Mark = Mark(stack: seq<Tail>, tails: seq<Tail>, orders: seq<seq<string>>, ended: set<nat>) {
    /** The newest run, the tails of those before it, and the stack around it. */
    function Index(): nat { if tails == [] then 0 else |tails| - 1 }

    function Before(): seq<Tail> { tails[..Index()] }

    function Outer(): seq<Tail> { if stack == [] then [] else stack[..|stack| - 1] }
  }

  class Launcher {
    const runs: seq<Scheduled>
    var next: nat
    var active: seq<Tail>
    var orders: seq<seq<string>>
    var failed: bool
    var escaped: bool
    ghost var stack: seq<Tail>
    ghost var tails: seq<Tail>
    ghost var ended: set<nat>
    ghost var clashed: bool

    constructor (runs: seq<Scheduled>)
      ensures Ready() && !clashed && next == 0 && stack == [] && this.runs == runs
    {
      this.runs, next, active, orders, failed, escaped := runs, 0, [], [], false, false;
      stack, tails, ended, clashed := [], [], {}, false;
    }

    /** Runs were launched in order, each exactly once and not before its predecessor left room, with its panel
        permuted. Until two tails clash, `active` stands for the call stack and each panel is ordered by what
        the enclosing runs have open. */
    ghost predicate Valid()
      reads `next, `active, `orders, `escaped, `stack, `tails, `ended, `clashed, active, stack, tails
    {
      && next == |tails| <= |runs| && Books() && Covered(stack, tails, ended)
      && Account(runs, ended, clashed, escaped) && (!clashed ==> Planned(runs, orders))
    }

    ghost predicate Books()
      reads `next, `active, `orders, `escaped, `stack, `tails, `ended, `clashed, active, stack, tails
    {
      && next == |orders| && History(runs, orders, tails, ended)
      && OnStack(stack, tails) && (!clashed ==> Represents(active, stack))
    }

    /** Between two launches. */
    ghost predicate Ready()
      reads `next, `active, `orders, `escaped, `stack, `tails, `ended, `clashed, active, stack, tails
    {
      Valid() && !escaped && StackOf(runs, tails, stack)
    }

    /** The tasks on the list: those that some launched run has open. */
    method Conflicts() returns (conflicts: set<string>)
      requires Ready()
      ensures conflicts == Union(active) && (!clashed ==> conflicts == OpenBefore(runs, next))
    {
      conflicts := Union(active);
      if !clashed {
        ConflictsAreOpenTasks(active, stack);
        OpenOnStack(runs, tails, stack);
      }
    }

    method NewTail(run: Scheduled) returns (tail: Tail)
      requires Valid() && next <= |runs| && (next > 0 ==> MayFollow(runs, tails, ended, next - 1))
      ensures Valid() && (next > 0 ==> MayFollow(runs, tails, ended, next - 1))
      ensures fresh(tail) && tail !in tails && tail.tasks == PanelSet(run)
    {
      tail := new Tail(PanelSet(run));
    }

    /** The head of `run_next`: takes the next run, orders its panel, and puts its tail on the list. */
    method Launch() returns (tail: Tail)
      requires Ready() && next < |runs| && (next > 0 ==> MayFollow(runs, tails, ended, next - 1))
      modifies this`next, this`active, this`orders, this`stack, this`tails
      ensures Valid() && fresh(tail) && next == old(next) + 1
      ensures stack == old(stack) + [tail] && tails == old(tails) + [tail] && active == old(active) + [tail]
      ensures tail.tasks == PanelSet(runs[old(next)])
      ensures orders == old(orders) + [Ordered(runs[old(next)].panel, old(Union(active)))]
      ensures clashed == old(clashed) && !escaped && ended == old(ended)
    {
      hide Books, Covered, Account, Planned;
      var conflicts := Conflicts();
      tail := NewTail(runs[next]);
      Enter(tail, conflicts);
    }

    method Enter(tail: Tail, conflicts: set<string>)
      requires Valid() && tail !in tails && next < |runs|
      requires next > 0 ==> MayFollow(runs, tails, ended, next - 1)
      requires !clashed ==> conflicts == OpenBefore(runs, next)
      modifies this`next, this`active, this`orders, this`stack, this`tails
      ensures Valid() && next == old(next) + 1
      ensures stack == old(stack) + [tail] && tails == old(tails) + [tail] && active == old(active) + [tail]
      ensures orders == old(orders) + [Ordered(runs[old(next)].panel, conflicts)]
    {
      HistoryExtends(runs, orders, tails, ended, tail, conflicts);
      if !clashed { PlannedExtends(runs, orders, Ordered(runs[next].panel, conflicts)); }
      Push(tail, Ordered(runs[next].panel, conflicts));
    }

    method Push(tail: Tail, order: seq<string>)
      requires Books() && tail !in tails && History(runs, orders + [order], tails + [tail], ended)
      requires Covered(stack, tails, ended)
      modifies this`next, this`active, this`orders, this`stack, this`tails
      ensures Books() && next == old(next) + 1 && orders == old(orders) + [order] && Covered(stack, tails, ended)
      ensures stack == old(stack) + [tail] && tails == old(tails) + [tail] && active == old(active) + [tail]
    {
      hide History, Covered, OnStack, Represents;
      OnStackExtends(stack, tails, tail);
      CoveredPush(stack, tails, ended, tail);
      if !clashed { PushKeeps(active, stack, tail); }
      orders := orders + [order];
      next, active, stack, tails := next + 1, active + [tail], stack + [tail], tails + [tail];
    }

    /** The `finally` clause. It cannot fail when the tail itself is still on the list. */
    method Retire(tail: Tail)
      requires Books() && stack != [] && stack[|stack| - 1] == tail
      modifies this`active, this`stack, this`escaped, this`clashed
      ensures Books() && stack == old(stack)[..|old(stack)| - 1]
      ensures clashed <==> old(clashed) || old(Masked(stack))
      ensures escaped ==> old(escaped) || old(clashed)
      ensures old(escaped) ==> escaped
      ensures tail in old(active) ==> escaped == old(escaped)
    {
      hide Nonempty, FirstEqual;
      var i := FirstEqual(active, tail.tasks);
      if !clashed { RemovalIff(active, stack); }
      clashed := clashed || Masked(stack);
      stack := stack[..|stack| - 1];
      if i == None { escaped := true; return; }
      active := Without(active, i.value);
    }

    /** The end of run `k`. */
    method Finish(tail: Tail, ghost before: seq<Tail>, ghost outer: seq<Tail>)
      requires Valid() && before + [tail] <= tails && stack == outer + [tail] && StackOf(runs, before, outer)
      requires escaped || (!Raising(runs[|before|]) && tail.tasks == Leftover(runs[|before|]))
      modifies this`active, this`stack, this`escaped, this`clashed, this`ended
      ensures Valid() && stack == outer && ended == old(ended) + {|before|}
      ensures (old(escaped) ==> escaped) && (old(clashed) ==> clashed)
      ensures tail in old(active) ==> escaped == old(escaped)
    {
      ghost var k, masked, was, raised := |before|, Masked(stack), clashed, escaped;
      HeldOnStack(runs, before, outer, tail.tasks);
      MaskedIff(outer, tail);
      Retire(tail);
      AccountEnd(runs, ended, was, raised, k, tail.tasks, masked, clashed, escaped);
      MarkEnded(k);
    }

    ghost method MarkEnded(k: nat)
      requires Books() && k < |tails| && Covered(stack + [tails[k]], tails, ended)
      requires Account(runs, ended + {k}, clashed, escaped) && (!clashed ==> Planned(runs, orders))
      modifies this`ended
      ensures Valid() && ended == old(ended) + {k}
    {
      hide History, Covered, Represents, Account, Planned;
      HistoryEnds(runs, orders, tails, ended, k);
      CoveredEnds(stack, tails, ended, k);
      ended := ended + {k};
    }

    /** `task_finished`: the task leaves its run's tail; a task that is not in it is a KeyError. */
    method TaskDone(tail: Tail, task: string) returns (known: bool)
      requires Valid() && tail in stack
      modifies tail
      ensures known == (task in old(tail.tasks)) && tail.tasks == old(tail.tasks) - {task}
      ensures Valid()
    {
      known := task in tail.tasks;
      Discard(tail, task, active, stack);
      Smaller(old(tail.tasks), task);
      forall k | 0 <= k < |tails| - 1 ensures MayFollow(runs, tails, ended, k) {
        assert old(MayFollow(runs, tails, ended, k));
      }
    }

    /** Report `i` of a run, as far as its tail goes. */
    method Report(tail: Tail, run: Scheduled, i: nat, ghost m: Mark) returns (known: bool)
      requires Kept(m) && tail in stack && i < |run.events| && tail.tasks == Remaining(run, i) && !Misnames(run, i)
      modifies tail
      ensures Kept(m) && known == !Misnames(run, i + 1)
      ensures known ==> tail.tasks == Remaining(run, i + 1)
    {
      known := true;
      if run.events[i].TaskFinished? { known := TaskDone(tail, run.events[i].task); }
    }

    /** What running nested runs leaves in place. */
    ghost predicate Kept(m: Mark)
      reads `next, `active, `orders, `escaped, `stack, `tails, `ended, `clashed, active, stack, tails
    {
      Valid() && stack == m.stack && m.tails <= tails && m.orders <= orders && m.ended <= ended
    }

    ghost function Here(): Mark
      reads this
    {
      Mark(stack, tails, orders, ended)
    }

    /** `_evaluate` of the newest run with its callbacks. */
    method Evaluate(tail: Tail, ghost m: Mark) returns (ending: Ending, nextStarted: bool)
      requires Kept(m) && !escaped && Inside(m, tail) && tails == m.tails && tail.tasks == PanelSet(runs[m.Index()])
      modifies this, tail
      ensures Kept(m) && (old(clashed) ==> clashed)
      ensures nextStarted == Nests(runs[m.Index()])
      ensures next == if nextStarted then StopAt(runs, m.Index() + 1) else m.Index() + 1
      ensures !nextStarted ==> active == old(active) && tails == old(tails) && !escaped
      ensures ending.Raises? <==> escaped || Raising(runs[m.Index()])
      ensures ending.Raises? || (ending == runs[m.Index()].ending && tail.tasks == Leftover(runs[m.Index()]))
      decreases |runs| - next, 8
    {
      hide Books, Covered, Account, Planned;
      var run := runs[next - 1];
      assert run == runs[m.Index()];
      ghost var n;
      var raises;
      raises, nextStarted, n := Reports(tail, run, m);
      if raises { RaisedThere(run, n, nextStarted); }
      ending := if raises then Raises else run.ending;
    }

    /** The run of `tail` is the newest and the innermost, and the runs around it hold what they had open. */
    ghost predicate Inside(m: Mark, tail: Tail)
      reads m.Before()
    {
      && m.tails != [] && m.stack != [] && m.tails == m.Before() + [tail] && m.stack == m.Outer() + [tail]
      && tail !in m.Before() && |m.tails| <= |runs|
      && StackOf(runs, m.Before(), m.Outer())
    }

    /** The reports of a run's worker, one by one. */
    method Reports(tail: Tail, run: Scheduled, ghost m: Mark) returns (raises: bool, nextStarted: bool, ghost n: nat)
      requires Kept(m) && !escaped && Inside(m, tail) && tails == m.tails
      requires run == runs[m.Index()] && tail.tasks == PanelSet(run)
      modifies this, tail
      ensures Kept(m) && (old(clashed) ==> clashed)
      ensures n <= |run.events| && Position(run, m.Index(), n, nextStarted)
      ensures !nextStarted ==> active == old(active) && tails == old(tails) && !escaped
      ensures raises <==> escaped || Misnames(run, n)
      ensures !raises ==> n == |run.events| && tail.tasks == Leftover(run)
      decreases |runs| - next, 7
    {
      hide Books, Covered, Account, Planned;
      raises, nextStarted, n := false, false, 0;
      var i := 0;
      while i < |run.events|
        invariant i == n <= |run.events| && tail.tasks == Remaining(run, i) && !Misnames(run, i)
        invariant Kept(m) && (old(clashed) ==> clashed) && !escaped && Position(run, m.Index(), i, nextStarted)
        invariant !nextStarted ==> active == old(active) && tails == old(tails)
      {
        raises, nextStarted := OnEvent(tail, run, i, nextStarted, m);
        n := i + 1;
        if raises { return; }
        i := i + 1;
      }
      raises := false;
    }

    /** How far run `k` is after `n` reports, and how many runs are launched. */
    ghost predicate Position(run: Scheduled, k: nat, n: nat, started: bool)
      requires n <= |run.events| && k < |runs|
      reads `next
    {
      started == LaunchAt(run, n).Some? && next == if started then StopAt(runs, k + 1) else k + 1
    }

    /** One report of a run: `task_finished` and `maybe_start_next`. */
    method OnEvent(tail: Tail, run: Scheduled, i: nat, started: bool, ghost m: Mark)
      returns (raises: bool, nextStarted: bool)
      requires Kept(m) && !escaped && Inside(m, tail) && run == runs[m.Index()]
      requires i < |run.events| && tail.tasks == Remaining(run, i) && !Misnames(run, i)
      requires Position(run, m.Index(), i, started) && (!started ==> tails == m.tails)
      modifies this, tail
      ensures Kept(m) && (old(clashed) ==> clashed)
      ensures Position(run, m.Index(), i + 1, nextStarted)
      ensures !nextStarted ==> active == old(active) && tails == old(tails) && !escaped
      ensures raises <==> escaped || Misnames(run, i + 1)
      ensures !raises ==> tail.tasks == Remaining(run, i + 1)
      decreases |runs| - next, 6
    {
      hide Valid, Books, Covered, Account, Planned, StopAt, StackOf, Remaining, LaunchAt, Misnames;
      AfterReport(run, i);
      nextStarted := started;
      var known := Report(tail, run, i, m);
      if !known { return true, nextStarted; }
      if !run.events[i].Otherwise? { nextStarted := MaybeStartNext(tail, run, i, started, m); }
      raises := escaped;
    }

    /** `maybe_start_next`, after report `i`. */
    method MaybeStartNext(tail: Tail, run: Scheduled, i: nat, started: bool, ghost m: Mark) returns (nextStarted: bool)
      requires Kept(m) && !escaped && Inside(m, tail) && run == runs[m.Index()]
      requires i < |run.events| && tail.tasks == Remaining(run, i + 1) && !Misnames(run, i + 1)
      requires !run.events[i].Otherwise? && Position(run, m.Index(), i, started) && (!started ==> tails == m.tails)
      modifies this
      ensures Kept(m) && (old(clashed) ==> clashed)
      ensures Position(run, m.Index(), i + 1, nextStarted)
      ensures !nextStarted ==> active == old(active) && tails == old(tails) && !escaped
      decreases |runs| - next, 5
    {
      hide Valid, Books, Covered, Account, Planned, StopAt, StackOf, Remaining, LaunchAt, Misnames, HoldsOpen;
      AfterReport(run, i);
      nextStarted := started;
      if !started && |tail.tasks| < run.concurrency {
        nextStarted := true;
        StartNext(tail, m);
      }
    }

    /** `start_next` of a run that has room for it. */
    method StartNext(ghost tail: Tail, ghost m: Mark)
      requires Kept(m) && !escaped && Inside(m, tail) && tails == m.tails
      requires HoldsOpen(runs[m.Index()], tail.tasks)
      requires |tail.tasks| < runs[m.Index()].concurrency
      modifies this
      ensures Kept(m) && (old(clashed) ==> clashed) && next == StopAt(runs, m.Index() + 1)
      decreases |runs| - next, 4
    {
      StackOfPush(runs, m.Before(), m.Outer(), tail);
      assert MayFollow(runs, tails, ended, m.Index());
      RunNext(m);
    }

    /** A run's launch, seen from inside it. */
    method Begin() returns (tail: Tail, ghost m: Mark)
      requires Ready() && next < |runs| && (0 < next ==> MayFollow(runs, tails, ended, next - 1))
      modifies this`next, this`active, this`orders, this`stack, this`tails
      ensures Kept(m) && Inside(m, tail) && tails == m.tails && fresh(tail) && tail in active
      ensures clashed == old(clashed) && !escaped
      ensures tail.tasks == PanelSet(runs[m.Index()]) && m.Index() == old(next) && next == old(next) + 1
      ensures m == Mark(old(stack) + [tail], old(tails) + [tail], m.orders, old(ended)) && old(orders) <= m.orders
      ensures m.Before() == old(tails) && m.Outer() == old(stack)
    {
      hide Books, Covered, Account, Planned;
      ghost var before, outer := tails, stack;
      tail := Launch();
      m := Here();
      assert m.Before() == before && m.Outer() == outer;
    }

    /** One run, from its launch to the end of its evaluation. */
    method Work() returns (tail: Tail, ending: Ending, nextStarted: bool, ghost m: Mark)
      requires Ready() && next < |runs| && (0 < next ==> MayFollow(runs, tails, ended, next - 1))
      modifies this
      ensures Kept(m) && Inside(m, tail) && fresh(tail) && m.Index() == old(next) && (old(clashed) ==> clashed)
      ensures m == Mark(old(stack) + [tail], old(tails) + [tail], m.orders, old(ended)) && old(orders) <= m.orders
      ensures m.Before() == old(tails) && m.Outer() == old(stack)
      ensures nextStarted == Nests(runs[m.Index()])
      ensures next == if nextStarted then StopAt(runs, m.Index() + 1) else m.Index() + 1
      ensures !nextStarted ==> tail in active && tails == m.tails && !escaped
      ensures ending.Raises? <==> escaped || Raising(runs[m.Index()])
      ensures ending.Raises? || (ending == runs[m.Index()].ending && tail.tasks == Leftover(runs[m.Index()]))
      decreases |runs| - next, 0
    {
      hide Books, Covered, Account, Planned;
      tail, m := Begin();
      ending, nextStarted := Evaluate(tail, m);
    }

    method Escape(ghost k: nat, ghost m: Mark)
      requires Kept(m) && k < |runs| && (escaped || Raising(runs[k]))
      modifies this`escaped
      ensures Kept(m) && escaped
    {
      AccountRaise(runs, ended, clashed, escaped, k);
      escaped := true;
    }

    /** An exception is on its way if the run raised; either way its tail goes. */
    method Close(tail: Tail, raises: bool, ghost m: Mark)
      requires Kept(m) && Inside(m, tail) && m.Index() < |runs| && (raises <==> escaped || Raising(runs[m.Index()]))
      requires raises || tail.tasks == Leftover(runs[m.Index()])
      modifies `active, `stack, `escaped, `clashed, `ended
      ensures Kept(m.(stack := m.Outer())) && m.Index() in ended && (old(clashed) ==> clashed)
      ensures !Nests(runs[m.Index()]) ==> StackOf(runs, m.tails, m.Outer())
      ensures raises ==> escaped
      ensures !raises && tail in old(active) ==> !escaped
    {
      hide Books, Covered, Account, Planned;
      if raises { Escape(m.Index(), m); }
      Finish(tail, m.Before(), m.Outer());
      StackOfPush(runs, m.Before(), m.Outer(), tail);
    }

    /** One run, from its launch to its removal from the list. */
    method RunOne(ghost m: Mark) returns (ending: Ending, nextStarted: bool)
      requires Kept(m) && Ready() && next < |runs| && (0 < next ==> MayFollow(runs, tails, ended, next - 1))
      modifies this
      ensures Kept(m) && (old(clashed) ==> clashed) && old(next) in ended
      ensures nextStarted == Nests(runs[old(next)])
      ensures next == if nextStarted then StopAt(runs, old(next) + 1) else old(next) + 1
      ensures Raising(runs[old(next)]) ==> escaped
      ensures !nextStarted && escaped ==> Raising(runs[old(next)])
      ensures !nextStarted && !escaped ==> Ready()
      ensures !escaped ==> ending == runs[old(next)].ending
      decreases |runs| - next, 1
    {
      hide Books, Covered, Account, Planned;
      var tail;
      ghost var inside;
      tail, ending, nextStarted, inside := Work();
      Close(tail, ending.Raises?, inside);
    }

    /** One run, and whether it is followed by another at this level. */
    method RunAndNote(ghost m: Mark) returns (again: bool)
      requires Kept(m) && Ready() && next < |runs| && (0 < next ==> MayFollow(runs, tails, ended, next - 1))
      modifies this
      ensures Kept(m) && (old(clashed) ==> clashed)
      ensures again ==>
        Ready() && old(next) in ended && next == old(next) + 1 && StopAt(runs, old(next)) == StopAt(runs, next)
      ensures !again ==> next == StopAt(runs, old(next))
      decreases |runs| - next, 2
    {
      hide Books, Covered, Account, Planned;
      StopSteps(runs, next);
      var ending, nextStarted := RunOne(m);
      if !escaped && ending.MeasurementFailed? { NoteFailure(m); }
      again := !escaped && !nextStarted;
    }

    method NoteFailure(ghost m: Mark)
      requires Kept(m)
      modifies `failed
      ensures Kept(m) && (old(Ready()) ==> Ready())
    {
      hide Kept, Ready;
      failed := true;
    }

    /** `run_next`. Whatever the workers report, runs are launched in order, once each and never early, up to the
        first that raises before it has launched the next; no clash of tails changes that. */
    method RunNext(ghost m: Mark)
      requires Kept(m) && Ready() && (0 < next < |runs| ==> MayFollow(runs, tails, ended, next - 1))
      modifies this
      ensures Kept(m) && (old(clashed) ==> clashed) && next == StopAt(runs, old(next))
      decreases |runs| - next, 3
    {
      hide Books, Covered, Account, Planned;
      if next == |runs| { return; }
      ghost var k := next;
      var again := RunAndNote(m);
      if again {
        assert next - 1 == k;
        RunNext(m);
      }
    }
  }

  /** At the end of the launches, `escaped` and `clashed` are facts about the runs. */
  lemma AtTheEnd(runs: seq<Scheduled>, ended: set<nat>, clashed: bool, escaped: bool)
    requires Account(runs, ended, clashed, escaped) && forall k :: 0 <= k < StopAt(runs, 0) ==> k in ended
    ensures !clashed ==> (escaped <==> SomeRaises(runs))
    ensures !SomeRaises(runs) ==> (clashed <==> SomeClash(runs))
  {
    if SomeRaises(runs) {
      var k :| 0 <= k < |runs| && Raising(runs[k]);
      k := FirstRaiseIsLaunched(runs, 0, k);
      assert EndedWell(runs, k, clashed, escaped);
    } else {
      NothingStops(runs, 0);
      if SomeClash(runs) {
        var k :| 0 <= k < |runs| && ClashesAt(runs, k);
        assert EndedWell(runs, k, clashed, escaped);
      }
    }
  }

  /** `_run_overlapping`. Runs are launched, each with a permutation of its panel, up to the first that raises
      without having launched the next -- all of them if none does. If no run raises, two tails clash exactly
      when some run leaves unreported just the tasks that an enclosing run has open. As long as nothing clashes
      each panel is ordered by what the enclosing runs have open, the list ends empty, and an exception escapes
      exactly when some run raises. */
  method RunOverlapping(runs: seq<Scheduled>) returns (l: Launcher)
    ensures fresh(l) && l.Valid() && l.runs == runs
    ensures |l.orders| == StopAt(runs, 0) && (!SomeRaises(runs) ==> |l.orders| == |runs|)
    ensures forall k :: 0 <= k < |l.orders| ==> SamePanel(l.orders[k], runs[k].panel)
    ensures !SomeRaises(runs) ==> (l.clashed <==> SomeClash(runs))
    ensures !l.clashed ==> Planned(runs, l.orders) && l.active == []
    ensures !l.clashed ==> (l.escaped <==> SomeRaises(runs))
  {
    l := new Launcher(runs);
    l.RunNext(l.Here());
    if !SomeRaises(runs) { NothingStops(runs, 0); }
    AtTheEnd(runs, l.ended, l.clashed, l.escaped);
  }

  /** What a clash does: when an inner run ends with just the tasks that an outer one has open, the outer run's
      tail is removed and the dead one stays on the list... */
  lemma ClashRemovesTheOuter(outer: Tail, inner: Tail)
    requires outer != inner && outer.tasks == inner.tasks != {}
    ensures var l := [outer, inner];
      && Represents(l, l) && Distinct(l) && Masked(l)
      && FirstEqual(l, inner.tasks) == Some(0) && Without(l, 0) == [inner]
  {
    var l := [outer, inner];
    assert l[..1] == [outer] && [outer][..0] == [];
    assert l[0].tasks == l[|l| - 1].tasks;
  }

  /** ... so that an outer run which then finishes its tasks is not found: its removal is a ValueError. */
  lemma FinishedOuterIsNotFound(outer: Tail, inner: Tail)
    requires outer.tasks == {} && inner.tasks != {}
    ensures FirstEqual([inner], outer.tasks) == None
  {
  }

  /** The outer run starts, and finishes its one task after the inner run has failed without a report. */
  function ClashingRuns(task: string): seq<Scheduled> {
    [Scheduled([task], 2, [Started, TaskFinished(task)], Ending.Completed), Scheduled([task], 2, [], MeasurementFailed)]
  }

  /** Two runs of one task clash, though neither raises; both are launched. */
  method ClashScenario(task: string) returns (l: Launcher)
    ensures l.runs == ClashingRuns(task) && l.Valid() && |l.orders| == 2 && l.clashed
  {
    var runs := ClashingRuns(task);
    TheyClash(task);
    l := RunOverlapping(runs);
  }

  lemma TheyClash(task: string)
    ensures !SomeRaises(ClashingRuns(task)) && ClashesAt(ClashingRuns(task), 1)
  {
    var runs := ClashingRuns(task);
    var outer, inner := runs[0], runs[1];
    assert PanelSet(outer) == {task} && PanelSet(inner) == {task};
    assert Remaining(outer, 0) == Remaining(outer, 1) == {task};
    assert !Misnames(outer, 0) && !Misnames(outer, 1) && !Misnames(outer, 2);
    assert LaunchAt(outer, 1) == Some(0) && LaunchAt(outer, 2) == Some(0);
    assert HoldsOpen(outer, {task}) && HeldBefore(runs, 1, {task});
  }

  function Dropping(tails: seq<Tail>, t: Tail): seq<Tail> {
    if tails == [] then []
    else Dropping(tails[..|tails| - 1], t) + if tails[|tails| - 1] == t then [] else [tails[|tails| - 1]]
  }

  lemma DroppingPush(tails: seq<Tail>, x: Tail, t: Tail)
    ensures Dropping(tails + [x], t) == Dropping(tails, t) + if x == t then [] else [x]
  {
    assert (tails + [x])[..|tails|] == tails;
  }

  function Filter(tails: seq<Tail>, live: set<Tail>): seq<Tail> {
    if tails == [] then []
    else Filter(tails[..|tails| - 1], live) + if tails[|tails| - 1] in live then [tails[|tails| - 1]] else []
  }

  lemma {:induction false} NonemptyIsFilter(tails: seq<Tail>, live: set<Tail>)
    requires forall i :: 0 <= i < |tails| ==> (tails[i] in live <==> tails[i].tasks != {})
    ensures Nonempty(tails) == Filter(tails, live)
  {
    if tails != [] { NonemptyIsFilter(tails[..|tails| - 1], live); }
  }

  lemma RepresentsByFilter(active: seq<Tail>, stack: seq<Tail>, live: set<Tail>)
    requires forall i :: 0 <= i < |active| ==> (active[i] in live <==> active[i].tasks != {})
    requires forall i :: 0 <= i < |stack| ==> (stack[i] in live <==> stack[i].tasks != {})
    ensures Represents(active, stack) <==> |active| == |stack| && Filter(active, live) == Filter(stack, live)
  {
    NonemptyIsFilter(active, live);
    NonemptyIsFilter(stack, live);
  }

  /** A tail that becomes empty drops out of the unfinished tails, and nothing else does. */
  lemma {:induction false} FilterDrops(tails: seq<Tail>, live: set<Tail>, t: Tail)
    ensures Filter(tails, live - {t}) == Dropping(Filter(tails, live), t)
  {
    if tails != [] {
      var init, last := tails[..|tails| - 1], tails[|tails| - 1];
      FilterDrops(init, live, t);
      if last in live {
        DroppingPush(Filter(init, live), last, t);
      } else {
        assert Filter(tails, live) == Filter(init, live);
      }
    }
  }

  lemma Smaller(s: set<string>, x: string)
    ensures |s - {x}| <= |s|
  {
    if x !in s { assert s - {x} == s; }
  }

  lemma PushKeeps(active: seq<Tail>, stack: seq<Tail>, tail: Tail)
    requires Represents(active, stack)
    ensures Represents(active + [tail], stack + [tail])
  {
    NonemptyOfConcat(active, [tail]);
    NonemptyOfConcat(stack, [tail]);
  }
}
