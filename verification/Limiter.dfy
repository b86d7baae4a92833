/** Task admission (src/concurrency.py:21-49): a semaphore, a lock and an interval between admissions, used by
    tasks that interleave at every await and may be cancelled or fail while they wait. */
module Limiter {
  import opened EnvSteps

  const ADMISSION_INTERVAL := 5.0
  const CPU_TARGET := 85.0

  /** Where a task is in `__aenter__` and `__aexit__`. */
  datatype Phase =
    | Queued | AwaitsLock | Sampling | Cleared | Sleeping(until: real) | Admitted | Gone

  predicate HoldsPermit(p: Phase) { !p.Queued? && !p.Gone? }

  /** Inside the locked section. */
  predicate HoldsLock(p: Phase) { p.Sampling? || p.Cleared? || p.Sleeping? }

  datatype State = State(
    permits: int, active: int, lock: Option<nat>, last: real, now: real, phases: map<nat, Phase>, admissions: seq<real>)

  datatype Event =
    | Arrive(t: nat) | TakePermit(t: nat) | TakeLock(t: nat) | Sample(t: nat, cpu: real) | SkipGate(t: nat)
    | Proceed(t: nat) | Wake(t: nat) | Interrupt(t: nat) | Leave(t: nat) | Tick(elapsed: real)

  predicate Moves(e: Event, task: nat) {
    match e
    case Arrive(t) => t == task
    case TakePermit(t) => t == task
    case TakeLock(t) => t == task
    case Sample(t, _) => t == task
    case SkipGate(t) => t == task
    case Proceed(t) => t == task
    case Wake(t) => t == task
    case Interrupt(t) => t == task
    case Leave(t) => t == task
    case Tick(_) => false
  }

  function Initial(ceiling: nat, now: real): State {
    State(ceiling, 0, None, 0.0, now, map[], [])
  }

  predicate At(s: State, t: nat, p: Phase) { t in s.phases && s.phases[t] == p }

  function Moved(s: State, t: nat, p: Phase): State { s.(phases := s.phases[t := p]) }

  /** Admission proper, and the release of the lock. */
  function Admit(s: State, t: nat): State {
    Moved(s, t, Admitted).(active := s.active + 1, last := s.now, lock := None, admissions := s.admissions + [s.now])
  }

  /** Past the CPU gate: sleep out the interval, or be admitted at once. */
  function PastGate(s: State, t: nat): State {
    if s.last + ADMISSION_INTERVAL - s.now > 0.0 then Moved(s, t, Sleeping(s.last + ADMISSION_INTERVAL)) else Admit(s, t)
  }

  predicate Enabled(s: State, e: Event) {
    match e
    case Arrive(t) => t !in s.phases
    case TakePermit(t) => At(s, t, Queued) && s.permits > 0
    case TakeLock(t) => At(s, t, AwaitsLock) && s.lock == None
    case Sample(t, _) => At(s, t, Sampling)
    case SkipGate(t) => At(s, t, Sampling) && s.active == 0
    case Proceed(t) => At(s, t, Cleared)
    case Wake(t) => t in s.phases && s.phases[t].Sleeping? && s.now >= s.phases[t].until
    case Interrupt(t) => t in s.phases && !s.phases[t].Admitted? && !s.phases[t].Gone?
    case Leave(t) => At(s, t, Admitted)
    case Tick(elapsed) => elapsed >= 0.0
  }

  function Next(s: State, e: Event): State
    requires Enabled(s, e)
  {
    match e
    case Arrive(t) => Moved(s, t, Queued)
    case TakePermit(t) => Moved(s, t, AwaitsLock).(permits := s.permits - 1)
    case TakeLock(t) => Moved(s, t, Sampling).(lock := Some(t))
    case Sample(t, cpu) => if cpu >= CPU_TARGET then s else Moved(s, t, Cleared)
    case SkipGate(t) => Moved(s, t, Cleared)
    case Proceed(t) => PastGate(s, t)
    case Wake(t) => Admit(s, t)
    case Interrupt(t) =>
      Moved(s, t, Gone).(
        permits := s.permits + (if HoldsPermit(s.phases[t]) then 1 else 0),
        lock := if HoldsLock(s.phases[t]) then None else s.lock)
    case Leave(t) => Moved(s, t, Gone).(active := s.active - 1, permits := s.permits + 1)
    case Tick(elapsed) => s.(now := s.now + elapsed)
  }

  // ------------------------------------------------------------ what every step keeps

  function Holders(phases: map<nat, Phase>): set<nat> {
    set t | t in phases && HoldsPermit(phases[t])
  }

  function Admittees(phases: map<nat, Phase>): set<nat> {
    set t | t in phases && phases[t].Admitted?
  }

  ghost predicate Counted(s: State, ceiling: int) {
    s.permits >= 0 && s.permits + |Holders(s.phases)| == ceiling && s.active == |Admittees(s.phases)|
  }

  /** The lock names the one task in the locked section, and a sleeper's deadline ends the interval. */
  ghost predicate Locked(s: State) {
    && (forall t :: t in s.phases && HoldsLock(s.phases[t]) ==> s.lock == Some(t))
    && (s.lock.Some? ==> s.lock.value in s.phases && HoldsLock(s.phases[s.lock.value]))
    && (forall t :: t in s.phases && s.phases[t].Sleeping? ==> s.phases[t].until == s.last + ADMISSION_INTERVAL)
  }

  ghost predicate Spaced(s: State) {
    && (s.admissions != [] ==> s.last == s.admissions[|s.admissions| - 1])
    && forall i :: 0 <= i < |s.admissions| - 1 ==> s.admissions[i + 1] - s.admissions[i] >= ADMISSION_INTERVAL
  }

  ghost predicate Inv(s: State, ceiling: int) {
    Counted(s, ceiling) && Locked(s) && Spaced(s)
  }

  function Toggle(s: set<nat>, t: nat, present: bool): set<nat> {
    if present then s + {t} else s - {t}
  }

  lemma MoveCounts(phases: map<nat, Phase>, t: nat, p: Phase)
    ensures Holders(phases[t := p]) == Toggle(Holders(phases), t, HoldsPermit(p))
    ensures Admittees(phases[t := p]) == Toggle(Admittees(phases), t, p.Admitted?)
    ensures t in Holders(phases) <==> t in phases && HoldsPermit(phases[t])
    ensures t in Admittees(phases) <==> t in phases && phases[t].Admitted?
  {
  }

  function Permits(s: State, t: nat): int { if t in s.phases && HoldsPermit(s.phases[t]) then 1 else 0 }

  function Inside(s: State, t: nat): int { if At(s, t, Admitted) then 1 else 0 }

  lemma MoveKeepsCounts(s: State, s': State, t: nat, p: Phase, ceiling: int)
    requires Counted(s, ceiling) && s'.phases == s.phases[t := p]
    requires s'.permits >= 0 && s'.permits + Permits(s', t) == s.permits + Permits(s, t)
    requires s'.active - Inside(s', t) == s.active - Inside(s, t)
    ensures Counted(s', ceiling)
  {
    MoveCounts(s.phases, t, p);
  }

  lemma NextKeepsCounts(s: State, e: Event, ceiling: int)
    requires Counted(s, ceiling) && Enabled(s, e)
    ensures Counted(Next(s, e), ceiling)
  {
    if !e.Tick? && Next(s, e) != s { MoveKeepsCounts(s, Next(s, e), e.t, Next(s, e).phases[e.t], ceiling); }
  }

  lemma NextKeepsLock(s: State, e: Event)
    requires Locked(s) && Enabled(s, e)
    ensures Locked(Next(s, e))
  {
  }

  lemma NextKeepsSpacing(s: State, e: Event)
    requires Locked(s) && Spaced(s) && Enabled(s, e)
    ensures Spaced(Next(s, e))
  {
    var s' := Next(s, e);
    if s'.admissions != s.admissions {
      assert s'.admissions == s.admissions + [s.now] && s.now >= s.last + ADMISSION_INTERVAL;
    }
  }

  /** What a task can rely on while others move: its own phase, and the last admission once it has the lock. */
  ghost predicate Undisturbed(s: State, s': State, me: nat) {
    && s.now <= s'.now && (me in s'.phases <==> me in s.phases)
    && (me in s.phases ==> s'.phases[me] == s.phases[me] && (HoldsLock(s.phases[me]) ==> s'.last == s.last))
  }

  lemma OthersLeaveMeAlone(s: State, e: Event, me: nat)
    requires Locked(s) && Enabled(s, e) && !Moves(e, me)
    ensures Undisturbed(s, Next(s, e), me)
  {
  }

  // ------------------------------------------------------------ whole runs

  /** Events that are not enabled do not happen. */
  function After(s: State, events: seq<Event>): State {
    if events == [] then s
    else
      var before := After(s, events[..|events| - 1]);
      var e := events[|events| - 1];
      if Enabled(before, e) then Next(before, e) else before
  }

  /** At every moment of every run, whatever is cancelled and whenever: the free permits and the tasks holding
      one make up the ceiling, and the tasks inside are counted and at most as many. */
  lemma {:induction false} PermitsAreConserved(ceiling: nat, now: real, events: seq<Event>)
    ensures var s := After(Initial(ceiling, now), events);
      && Inv(s, ceiling) && 0 <= s.active <= ceiling && s.permits + |Holders(s.phases)| == ceiling
  {
    var s := After(Initial(ceiling, now), events);
    if events == [] {
      assert Holders(s.phases) == {} && Admittees(s.phases) == {};
    } else {
      PermitsAreConserved(ceiling, now, events[..|events| - 1]);
      var before, e := After(Initial(ceiling, now), events[..|events| - 1]), events[|events| - 1];
      if Enabled(before, e) {
        NextKeepsCounts(before, e, ceiling);
        NextKeepsLock(before, e);
        NextKeepsSpacing(before, e);
      }
    }
    Subset(Admittees(s.phases), Holders(s.phases));
  }

  lemma {:induction false} Subset(a: set<nat>, b: set<nat>)
    requires a <= b
    ensures |a| <= |b|
  {
    if a != {} {
      var x :| x in a;
      Subset(a - {x}, b - {x});
    }
  }

  /** Task `t` came through the gate: it sampled the CPU below the target, or nothing was active when it looked. */
  ghost predicate PassedGate(ceiling: nat, now: real, events: seq<Event>, t: nat) {
    events != [] &&
    var init, e := events[..|events| - 1], events[|events| - 1];
    || PassedGate(ceiling, now, init, t)
    || (e.Sample? && e.t == t && e.cpu < 85.0)
    || (e.SkipGate? && e.t == t && After(Initial(ceiling, now), init).active == 0)
  }

  /** In every run, no task is admitted on a busy machine: each has come through the gate. */
  lemma {:induction false} AdmittedPassedGate(ceiling: nat, now: real, events: seq<Event>, t: nat)
    requires t in After(Initial(ceiling, now), events).phases
    requires var p := After(Initial(ceiling, now), events).phases[t]; p.Cleared? || p.Sleeping? || p.Admitted?
    ensures PassedGate(ceiling, now, events, t)
  {
    if events != [] {
      var init := events[..|events| - 1];
      var before := After(Initial(ceiling, now), init);
      if t in before.phases && (before.phases[t].Cleared? || before.phases[t].Sleeping? || before.phases[t].Admitted?) {
        AdmittedPassedGate(ceiling, now, init, t);
      }
    }
  }

  lemma {:induction false} FarApart(s: State, i: nat, j: nat)
    requires Spaced(s) && i <= j < |s.admissions|
    ensures s.admissions[j] - s.admissions[i] >= (j - i) as real * ADMISSION_INTERVAL
  {
    if i < j {
      FarApart(s, i, j - 1);
      assert s.admissions[(j - 1) + 1] - s.admissions[j - 1] >= ADMISSION_INTERVAL;
    }
  }

  /** Any window of length `width` holds at most floor(width / 5) + 1 admissions. */
  lemma AdmissionsPerWindow(ceiling: nat, now: real, events: seq<Event>, i: nat, j: nat, width: real)
    requires i <= j < |After(Initial(ceiling, now), events).admissions|
    requires var a := After(Initial(ceiling, now), events).admissions; a[j] - a[i] <= width
    ensures j - i + 1 <= (width / 5.0).Floor + 1
  {
    PermitsAreConserved(ceiling, now, events);
    FarApart(After(Initial(ceiling, now), events), i, j);
    assert (j - i) as real <= width / ADMISSION_INTERVAL;
  }

  // ------------------------------------------------------------ the limiter itself

  /** The machine's CPU, and what was read of it so far. */
  class CpuMeter {
    var readings: seq<real>

    constructor ()
      ensures readings == []
    {
      readings := [];
    }

    method Percent() returns (cpu: real)
      modifies this
      ensures readings == old(readings) + [cpu]
    {
      cpu := *;
      readings := readings + [cpu];
    }
  }

  /** The CPU readings among the events. */
  function Readings(events: seq<Event>): seq<real> {
    if events == [] then [] else Readings(events[..|events| - 1]) + ReadingOf(events[|events| - 1])
  }

  function ReadingOf(e: Event): seq<real> { if e.Sample? then [e.cpu] else [] }

  lemma AfterPush(s: State, events: seq<Event>, e: Event)
    requires Enabled(After(s, events), e)
    ensures After(s, events + [e]) == Next(After(s, events), e)
    ensures Readings(events + [e]) == Readings(events) + ReadingOf(e)
  {
    assert (events + [e])[..|events|] == events;
  }

  class CpuConcurrencyLimiter {
    const ceiling: nat
    const cpu: CpuMeter
    var slots: int
    var active: int
    var admission: Option<nat>
    var lastAdmission: real
    var now: real
    var phases: map<nat, Phase>
    ghost var admissions: seq<real>
    ghost const start: real
    ghost var events: seq<Event>

    constructor (ceiling: nat, now: real, cpu: CpuMeter)
      requires cpu.readings == []
      ensures Valid() && this.ceiling == ceiling && View() == Initial(ceiling, now) && this.cpu == cpu
    {
      this.ceiling, slots, active, admission, lastAdmission := ceiling, ceiling, 0, None, 0.0;
      this.now, phases, admissions := now, map[], [];
      this.cpu, start, events := cpu, now, [];
      assert Holders(map[]) == {} && Admittees(map[]) == {};
    }

    ghost function View(): State
      reads this
    {
      State(slots, active, admission, lastAdmission, now, phases, admissions)
    }

    /** A run of the protocol led here, with the CPU samples that were read. */
    ghost predicate Valid()
      reads this, cpu
    {
      Inv(View(), ceiling) && View() == After(Initial(ceiling, start), events) && Readings(events) == cpu.readings
    }

    ghost method Stepped(before: State, e: Event)
      requires Inv(before, ceiling) && before == After(Initial(ceiling, start), events) && Enabled(before, e)
      requires View() == Next(before, e) && cpu.readings == Readings(events) + ReadingOf(e)
      modifies this`events
      ensures Valid()
    {
      NextKeepsCounts(before, e, ceiling);
      NextKeepsLock(before, e);
      NextKeepsSpacing(before, e);
      AfterPush(Initial(ceiling, start), events, e);
      events := events + [e];
    }

    /** What happens during an await of task `me`: time passes and other tasks move. */
    method Await(me: nat)
      requires Valid()
      modifies this, cpu
      ensures Valid() && Undisturbed(old(View()), View(), me)
    {
      var events: nat := *;
      while events > 0
        invariant Valid() && Undisturbed(old(View()), View(), me)
      {
        var e: Event := *;
        if !Moves(e, me) { HappenTo(e, me); }
        events := events - 1;
      }
    }

    /** A move of another task; a sample is a reading of the CPU, whatever it shows. */
    method HappenTo(other: Event, ghost me: nat)
      requires Valid() && !Moves(other, me)
      modifies this, cpu
      ensures Valid() && Undisturbed(old(View()), View(), me)
    {
      var e := other;
      if e.Sample? && e.t in phases && phases[e.t].Sampling? {
        var reading := cpu.Percent();
        e := Sample(e.t, reading);
      }
      ghost var before := View();
      Happen(e);
      if Enabled(before, e) { OthersLeaveMeAlone(before, e, me); }
    }

    method Happen(e: Event)
      requires Inv(View(), ceiling) && View() == After(Initial(ceiling, start), events)
      requires cpu.readings == Readings(events) + if Enabled(View(), e) then ReadingOf(e) else []
      modifies this
      ensures Valid() && View() == if Enabled(old(View()), e) then Next(old(View()), e) else old(View())
    {
      hide Inv, After, Readings;
      var s := State(slots, active, admission, lastAdmission, now, phases, []);
      if !Enabled(s, e) { return; }
      ghost var before := View();
      var s' := Next(s, e);
      admissions := if e.Proceed? || e.Wake? then Next(before, e).admissions else admissions;
      slots, active, admission, lastAdmission, now, phases := s'.permits, s'.active, s'.lock, s'.last, s'.now, s'.phases;
      Stepped(before, e);
    }

    /** The except clause: the permit is given back, and so is the lock. */
    method GiveUp(me: nat)
      requires Valid() && me in phases && HoldsPermit(phases[me]) && !phases[me].Admitted?
      modifies this, cpu
      ensures Valid() && phases == old(phases)[me := Gone] && slots == old(slots) + 1 && active == old(active)
    {
      ghost var before := View();
      if admission == Some(me) { admission := None; }
      slots, phases := slots + 1, phases[me := Gone];
      Stepped(before, Interrupt(me));
    }

    /** `__aenter__`. At every await the task may be cancelled or fail, and other tasks go on. Either it is
        admitted, or it holds nothing any more. */
    method Enter(me: nat) returns (admitted: bool)
      requires Valid() && me !in phases
      modifies this, cpu
      ensures Valid() && At(View(), me, if admitted then Admitted else Gone)
      ensures admitted ==> JustAdmitted() && PassedGate(ceiling, start, events, me)
    {
      hide Inv, After, Readings, PassedGate;
      admitted := AcquireSlot(me);
      if admitted { admitted := AcquireLock(me); }
      if admitted { admitted := PassGate(me); }
      if admitted { admitted := SleepAndAdmit(me); }
      if admitted { AdmittedPassedGate(ceiling, start, events, me); }
    }

    method AcquireSlot(me: nat) returns (got: bool)
      requires Valid() && me !in phases
      modifies this, cpu
      ensures Valid() && At(View(), me, if got then AwaitsLock else Gone)
    {
      hide Inv, After, Readings;
      Happen(Arrive(me));
      Await(me);
      if slots <= 0 {
        Happen(Interrupt(me));
        return false;
      }
      ghost var before := View();
      slots, phases := slots - 1, phases[me := AwaitsLock];
      Stepped(before, TakePermit(me));
      got := true;
    }

    method AcquireLock(me: nat) returns (got: bool)
      requires Valid() && At(View(), me, AwaitsLock)
      modifies this, cpu
      ensures Valid() && At(View(), me, if got then Sampling else Gone)
    {
      hide Inv, After, Readings;
      Await(me);
      if admission != None {
        GiveUp(me);
        return false;
      }
      ghost var before := View();
      admission, phases := Some(me), phases[me := Sampling];
      Stepped(before, TakeLock(me));
      got := true;
    }

    ghost predicate JustAdmitted()
      reads this
    {
      admissions != [] && admissions[|admissions| - 1] == lastAdmission == now
    }

    /** Samples the CPU until it is below target or nothing is active. */
    method PassGate(me: nat) returns (open: bool)
      requires Valid() && At(View(), me, Sampling)
      modifies this, cpu
      ensures Valid() && At(View(), me, if open then Cleared else Gone)
    {
      var patience: nat := *;
      open := true;
      while active != 0
        invariant Valid() && At(View(), me, Sampling)
        decreases patience
      {
        Await(me);
        ghost var before := View();
        var reading := cpu.Percent();
        if reading < CPU_TARGET {
          phases := phases[me := Cleared];
          Stepped(before, Sample(me, reading));
          return;
        }
        Stepped(before, Sample(me, reading));
        if patience == 0 {
          GiveUp(me);
          return false;
        }
        patience := patience - 1;
      }
      ghost var before := View();
      phases := phases[me := Cleared];
      Stepped(before, SkipGate(me));
    }

    method SleepAndAdmit(me: nat) returns (admitted: bool)
      requires Valid() && At(View(), me, Cleared)
      modifies this, cpu
      ensures Valid() && At(View(), me, if admitted then Admitted else Gone)
      ensures admitted ==> JustAdmitted() && now >= old(lastAdmission) + ADMISSION_INTERVAL
    {
      hide Inv, After, Readings;
      var delay := lastAdmission + ADMISSION_INTERVAL - now;
      if delay > 0.0 {
        var deadline := now + delay;
        ghost var asleep := View();
        phases := phases[me := Sleeping(deadline)];
        Stepped(asleep, Proceed(me));
        Await(me);
        if now < deadline {
          GiveUp(me);
          return false;
        }
      }
      ghost var before := View();
      active := active + 1;
      lastAdmission := now;
      admission := None;
      phases, admissions := phases[me := Admitted], admissions + [now];
      Stepped(before, if before.phases[me].Sleeping? then Wake(me) else Proceed(me));
      admitted := true;
    }

    /** `__aexit__`. */
    method Exit(me: nat)
      requires Valid() && At(View(), me, Admitted)
      modifies this, cpu
      ensures Valid() && active == old(active) - 1 && slots == old(slots) + 1 && phases == old(phases)[me := Gone]
    {
      ghost var before := View();
      active := active - 1;
      slots := slots + 1;
      phases := phases[me := Gone];
      Stepped(before, Leave(me));
    }
  }
}
