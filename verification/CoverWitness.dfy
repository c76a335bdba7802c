/**
 A run that reaches an overlap of two `nextCell` requests of one job: the first slot's producer has not
 answered when the scheduler is suspended, resumed, and serves the job again in the next cycle.
 */
module CoverWitness {
  import opened Wrappers
  import opened CoverSlots
  import opened CoverScheduler
  import opened CoverJobs
  import opened CoverCells
  import opened CoverTime
  import opened CoverOverlap
  import opened CoverProgress

  /** One lane, two slots of 25 ms per cycle of 50 ms, no timer tolerance. */
  const CONFIG: Config := Config(Schedule(0, 50, 1, 2, 1), 0)

  const JOB := Job("job", Real, 2, 0, false)

  const QUEUED := Runtime(JOB, false, 0, false, false, false, false, None, None, [], [], [])
  const ADMITTED := QUEUED.(everAdmitted := true)

  const EVENTS: seq<Moment> := [
    At(0, EvEnqueue(JOB)), At(0, EvStart), At(0, EvTick({0}, true)), At(12, EvTick({0}, true)),
    At(12, EvSuspend), At(12, EvResume), At(50, EvTick({0}, true))]

  // ----- the states in between

  const S1 := INITIAL.(runtimes := [QUEUED], queued := {0}, jobs := map["job" := 0])
  const S2 := S1.(running := true, status := Starting, generation := 1, timer := Some(Timer(0, OpenBoundary)))
  const S3 := S2.(status := Active, generation := 2, timer := Some(Timer(12, SlotDeadline)), queued := {},
                  cycle := Some(Cycle(0, 0, 50, {0}, map[0 := 0], 0)), runtimes := [ADMITTED],
                  cyclesOpened := 1, starts := [0])
  const S4 := S3.(timer := None, inflight := map[2 := InFlight(0, 0, 12, Some(0), Producing(NextCell))])
  const S5 := S4.(status := Suspended, generation := 4, timer := Some(Timer(50, CycleBoundary)), queued := {0},
                  cycle := Some(Cycle(0, 0, 50, {0}, map[], 0)))
  const S6 := S5.(status := Starting, generation := 6)
  const S7 := S6.(status := Active, generation := 7, timer := Some(Timer(62, SlotDeadline)), queued := {},
                  cycle := Some(Cycle(1, 50, 100, {0}, map[0 := 0], 0)), closed := [0],
                  cyclesOpened := 2, starts := [0, 50])

  lemma Step1()
    ensures Next(CONFIG, INITIAL, EVENTS[0]) == S1
  {}

  lemma Step2()
    ensures Next(CONFIG, S1, EVENTS[1]) == S2
  {}

  lemma OneLane()
    ensures LanesBelow(1) == {0}
  {
    assert LanesBelow(0) == {};
  }

  lemma SelectOne(rs: seq<Runtime>, j: nat)
    requires j < |rs|
    ensures Select(rs, {j}, 0, 1) == map[0 := j]
  {
    assert First(rs, {j}) == j;
    assert {j} - {j} == {};
    assert Select(rs, {}, 1, 1) == map[];
  }

  /** Opening a cycle for the one queued job. */
  lemma OpensWith(s: State, j: nat, boundary: int)
    requires j < |s.runtimes| && s.queued == {j}
    ensures Orderable(s)
    ensures Opened(CONFIG, s, boundary, {0}) ==
        s.(runtimes := s.runtimes[j := s.runtimes[j].(everAdmitted := true)],
           queued := {},
           cyclesOpened := s.cyclesOpened + 1,
           starts := s.starts + [boundary],
           cycle := Some(Cycle(s.cyclesOpened, boundary, boundary + 50, {0}, map[0 := j], 0)),
           status := Active)
  {
    SelectOne(s.runtimes, j);
    OneLane();
    var chosen: map<nat, nat> := map[0 := j];
    assert chosen.Values == {j} by { assert chosen[0] == j; }
    assert Admit(s.runtimes, {j}) == s.runtimes[j := s.runtimes[j].(everAdmitted := true)];
    assert {j} - {j} == {};
    assert {0} * {0} == {0};
  }

  lemma FirstSlot(start: int)
    ensures SlotAt(CONFIG.schedule, start, 0).deadline == start + 12 && SlotAt(CONFIG.schedule, start, 0).lane == 0
  {}

  lemma Step3()
    ensures Next(CONFIG, S2, EVENTS[2]) == S3
  {
    OpensWith(S2.(timer := None), 0, 0);
    FirstSlot(0);
  }

  lemma Step4()
    ensures Next(CONFIG, S3, EVENTS[3]) == S4
  {
    FirstSlot(0);
  }

  lemma Step5()
    ensures Next(CONFIG, S4, EVENTS[4]) == S5
  {
    var carried: map<nat, nat> := map[0 := 0];
    assert carried.Values == {0} by { assert carried[0] == 0; }
    assert RequeueJobs([ADMITTED], {0}) == {0};
    assert {} + {0} == {0};
  }

  lemma Step6()
    ensures Next(CONFIG, S5, EVENTS[5]) == S6
  {}

  /** What the boundary at 50 opens for the one queued job `j`. */
  ghost function SecondCycle(s: State, j: nat): State
    requires j < |s.runtimes| && s.cycle.Some?
  {
    s.(runtimes := s.runtimes[j := s.runtimes[j].(everAdmitted := true)],
       queued := {},
       cycle := Some(Cycle(s.cyclesOpened, 50, 100, {0}, map[0 := j], 0)),
       closed := s.closed + [s.cycle.value.serial],
       cyclesOpened := s.cyclesOpened + 1,
       starts := s.starts + [50],
       status := Active,
       generation := s.generation + 1,
       timer := Some(Timer(62, SlotDeadline)))
  }

  lemma SecondOpens(s: State, j: nat)
    requires Drained(s) && j < |s.runtimes| && s.queued == {j} && s.timer == Some(Timer(50, CycleBoundary))
    requires s.cycle.Some? && s.cycle.value.carried == map[] && s.cycle.value.end == 50
    requires s.running && s.status != Stopped && s.status != Suspended
    ensures Next(CONFIG, s, At(50, EvTick({0}, true))) == SecondCycle(s, j)
  {
    var t := s.(timer := None, cycle := None, closed := s.closed + [s.cycle.value.serial]);
    BoundaryOpens(CONFIG, s, t, 50, {0});
    OpensWith(t, j, 50);
    FirstSlot(50);
  }

  lemma Step7()
    ensures Next(CONFIG, S6, EVENTS[6]) == S7
  {
    SecondOpens(S6, 0);
  }

  // ----- the run

  ghost function StateAfter(n: nat): State
    requires n <= 7
  {
    [INITIAL, S1, S2, S3, S4, S5, S6, S7][n]
  }

  lemma StepOf(n: nat)
    requires n < 7
    ensures Next(CONFIG, StateAfter(n), EVENTS[n]) == StateAfter(n + 1)
  {
    if n == 0 { Step1(); } else if n == 1 { Step2(); } else if n == 2 { Step3(); } else if n == 3 { Step4(); }
    else if n == 4 { Step5(); } else if n == 5 { Step6(); } else { Step7(); }
  }

  /** No event up to here breaks the environment's part. */
  lemma StepEnabled(n: nat)
    requires n < 7
    ensures Enabled(CONFIG, StateAfter(n), EVENTS[n].now, EVENTS[n].event)
  {
    if n == 3 { assert S3.inflight == map[]; }
  }

  lemma AfterNext(c: Config, ms: seq<Moment>, n: nat, s: State, t: State)
    requires 0 < n <= |ms| && After(c, INITIAL, ms[..n - 1]) == s && Next(c, s, ms[n - 1]) == t
    ensures After(c, INITIAL, ms[..n]) == t
  {
    AfterOne(c, INITIAL, ms[..n - 1], ms[n - 1]);
    assert ms[..n] == ms[..n - 1] + [ms[n - 1]];
  }

  lemma {:induction false} AfterIs(n: nat)
    requires n <= 7
    ensures After(CONFIG, INITIAL, EVENTS[..n]) == StateAfter(n)
  {
    if n > 0 {
      AfterIs(n - 1);
      StepOf(n - 1);
      AfterNext(CONFIG, EVENTS, n, StateAfter(n - 1), StateAfter(n));
    }
  }

  /** Every event of the run is enabled in the state before it. */
  ghost predicate EnabledAt(c: Config, tr: seq<Moment>, n: nat)
    requires n < |tr|
  {
    Enabled(c, After(c, INITIAL, tr[..n]), tr[n].now, tr[n].event)
  }

  lemma RunIsAfter(c: Config, tr: seq<Moment>)
    ensures Run(c, tr) == After(c, INITIAL, tr)
  {
    RunAfter(c, [], tr);
    assert [] + tr == tr;
  }

  lemma {:induction false} EnabledThroughout(c: Config, tr: seq<Moment>, n: nat)
    requires n <= |tr| && forall k: nat :: k < |tr| ==> EnabledAt(c, tr, k)
    ensures EnabledRun(c, tr[..n])
    decreases n
  {
    if n > 0 {
      EnabledThroughout(c, tr, n - 1);
      RunIsAfter(c, tr[..n - 1]);
      assert EnabledAt(c, tr, n - 1);
      assert tr[..n][..n - 1] == tr[..n - 1];
    }
  }

  lemma S7Overlaps()
    ensures Overlaps(CONFIG, S7, 62, 0)
  {
    FirstSlot(50);
    assert 2 in S7.inflight && S7.inflight[2].job == Some(0) && IsNext(S7.inflight[2].stage);
  }

  /** Overlaps happen: this run keeps the condition, and its next slot breaks it. */
  lemma OverlapReached()
    ensures EnabledRun(CONFIG, EVENTS) && Monotonic(EVENTS)
    ensures Overlaps(CONFIG, Run(CONFIG, EVENTS), 62, 0) && Run(CONFIG, EVENTS).cycle.value.carried[0] == 0
  {
    forall n: nat | n < 7 ensures EnabledAt(CONFIG, EVENTS, n) {
      AfterIs(n);
      StepEnabled(n);
    }
    EnabledThroughout(CONFIG, EVENTS, 7);
    AfterIs(7);
    assert EVENTS[..7] == EVENTS;
    RunIsAfter(CONFIG, EVENTS);
    S7Overlaps();
  }

  lemma MonotonicMore(tr: seq<Moment>, m: Moment, more: seq<Moment>)
    requires Monotonic(tr) && (tr != [] ==> tr[|tr| - 1].now <= m.now) && AllAt(more, m.now)
    ensures Monotonic(tr + [m] + more)
  {
    var all := tr + [m] + more;
    forall i | 0 < i < |all| ensures all[i - 1].now <= all[i].now {
      if i > |tr| { assert all[i] == more[i - |tr| - 1]; }
      if i > |tr| + 1 { assert all[i - 1] == more[i - |tr| - 2]; }
    }
  }

  /** Without the condition the cells of a job can get lost: a run after which lanes accepted them out of order. */
  lemma CellsCanBeLost() returns (tr: seq<Moment>)
    ensures Monotonic(tr) && Disordered(Run(CONFIG, tr), 0)
  {
    OverlapReached();
    var more := OverlapBreaksOrder(CONFIG, EVENTS, 62, 0, {0}, true);
    MonotonicMore(EVENTS, At(62, EvTick({0}, true)), more);
    tr := EVENTS + [At(62, EvTick({0}, true))] + more;
  }
}
