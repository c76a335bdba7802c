/**
 Why cell conservation asks that an id is not taken again while a `nextCell` request of its earlier job
 is on its way: `cacheUnsent` looks the job up by id, so the cell is then kept for the new job, which
 never produced it; and a run in which a lane accepts that cell as one of the new job.
 */
module CoverReuse {
  import opened Wrappers
  import opened CoverScheduler
  import opened CoverJobs
  import opened CoverCells
  import opened CoverTime
  import opened CoverOverlap
  import opened CoverWitness

  /** Job `j` keeps a cell that is not the one it produced after the accepted ones. */
  ghost predicate KeepsForeign(s: State, j: nat) {
    && Unsettled(s.runtimes, j) && s.runtimes[j].pendingCell.Some?
    && s.runtimes[j].produced != s.runtimes[j].accepted + [s.runtimes[j].pendingCell.value]
  }

  /** Request `g` asked an earlier job with the id of job `j`, which has not produced a cell. */
  ghost predicate Stale(s: State, g: nat, j: nat) {
    && g in s.inflight && IsNext(s.inflight[g].stage) && s.inflight[g].job.Some?
    && s.inflight[g].job.value < |s.runtimes| && s.inflight[g].job.value != j
    && Unsettled(s.runtimes, j) && s.runtimes[j].produced == []
    && var id := s.runtimes[s.inflight[g].job.value].job.id; id in s.jobs && s.jobs[id] == j
  }

  /** The cell of such a request is kept for job `j`, whether its slot is over, late or refused. */
  lemma StaleKept(c: Config, s: State, g: nat, j: nat, now: int)
    requires Stale(s, g, j) && s.inflight[g].stage.Ready?
    ensures KeepsForeign(Continue(c, s, g, now, Backpressure), j)
  {
    var f, t := s.inflight[g], s.(inflight := s.inflight - {g});
    var u := t.(sends := t.sends + [f.deadline]);
    assert CacheUnsent(t, f).runtimes == CacheUnsent(u, f).runtimes;
    assert KeepsForeign(CacheUnsent(t, f), j);
    assert Degrade(c, CacheUnsent(t, f), now).runtimes == CacheUnsent(t, f).runtimes;
    assert Degrade(c, CacheUnsent(u, f), now).runtimes == CacheUnsent(u, f).runtimes;
  }

  lemma StaleAnswer(c: Config, s: State, g: nat, j: nat, now: int, x: Cell)
    requires Stale(s, g, j) && s.inflight[g].stage.Producing?
    ensures var t := Produce(c, s, g, Cell(x), now); Stale(t, g, j) && t.inflight[g].stage.Ready?
  {}

  /** At most two events after such a request is on its way, its cell is kept for the wrong job. */
  lemma StaleBreaks(c: Config, s: State, g: nat, j: nat, now: int) returns (ms: seq<Moment>)
    requires Orderable(s) && Stale(s, g, j)
    ensures AllAt(ms, now) && KeepsForeign(After(c, s, ms), j)
  {
    var n := At(now, EvContinue(g, Backpressure));
    if s.inflight[g].stage.Ready? {
      StaleKept(c, s, g, j, now);
      AfterOne(c, s, [], n);
      ms := [] + [n];
    } else {
      var m := At(now, EvProduce(g, Cell(0)));
      ProduceOne(c, s, g, now, 0);
      StaleAnswer(c, s, g, j, now, 0);
      StaleKept(c, Produce(c, s, g, Cell(0), now), g, j, now);
      AfterOne(c, s, [], m);
      AfterOne(c, s, [] + [m], n);
      ms := [] + [m] + [n];
    }
  }

  /** Taking the id makes the request a stale one of the new job. */
  lemma ReuseIsStale(c: Config, s: State, job: Job) returns (g: nat)
    requires Orderable(s) && Reuses(c, s, job)
    ensures Orderable(Enqueue(c, s, job).value) && Stale(Enqueue(c, s, job).value, g, |s.runtimes|)
  {
    g :|
      && g in s.inflight && IsNext(s.inflight[g].stage) && s.inflight[g].job.Some?
      && s.inflight[g].job.value < |s.runtimes| && s.runtimes[s.inflight[g].job.value].job.id == job.id;
  }

  /**
   This condition is exact too: after every run, a job that takes an id while a `nextCell` request of the
   id's earlier job is on its way can, at most two events later, be keeping a cell that it did not produce.
   */
  lemma ReuseBreaksCells(c: Config, tr: seq<Moment>, now: int, job: Job) returns (more: seq<Moment>)
    requires Reuses(c, Run(c, tr), job)
    ensures AllAt(more, now)
    ensures KeepsForeign(Run(c, tr + [At(now, EvEnqueue(job))] + more), |Run(c, tr).runtimes|)
  {
    InvOrderable(Run(c, tr));
    var m := At(now, EvEnqueue(job));
    var g := ReuseIsStale(c, Run(c, tr), job);
    more := StaleBreaks(c, Enqueue(c, Run(c, tr), job).value, g, |Run(c, tr).runtimes|, now);
    RunThrough(c, tr, m, Next(c, Run(c, tr), m), more);
  }

  // ----- a run in which the cell is sent

  /** The first slot is asking the job when the job is completed and its id taken by a new one. */
  const REUSED: seq<Moment> := [
    At(0, EvEnqueue(JOB)), At(0, EvStart), At(0, EvTick({0}, true)), At(12, EvTick({0}, true)),
    At(12, EvComplete("job")), At(12, EvEnqueue(JOB)), At(12, EvProduce(2, Cell(7))),
    At(12, EvContinue(2, Backpressure)), At(50, EvTick({0}, true)), At(62, EvTick({0}, true)),
    At(62, EvContinue(5, Accepted))]

  const DONE := ADMITTED.(completed := true, settled := true, outcomes := [Completed])
  const ASKED := DONE.(produced := [7])
  const KEEPING := QUEUED.(pendingCell := Some(7))

  const R5 := S4.(runtimes := [DONE], jobs := map[])
  const R6 := R5.(runtimes := [DONE, QUEUED], queued := {1}, jobs := map["job" := 1])
  const R7 := R6.(runtimes := [ASKED, QUEUED], inflight := map[2 := InFlight(0, 0, 12, Some(0), Ready(NextCell, 7))])
  const R8 := R7.(status := Degraded, generation := 4, timer := Some(Timer(50, CycleBoundary)), inflight := map[],
                  cycle := Some(Cycle(0, 0, 50, {0}, map[], 0)), runtimes := [ASKED, KEEPING], sends := [12])
  const R9 := R8.(status := Active, generation := 5, timer := Some(Timer(62, SlotDeadline)), queued := {},
                  cycle := Some(Cycle(1, 50, 100, {0}, map[0 := 1], 0)), cyclesOpened := 2, starts := [0, 50],
                  closed := [0], runtimes := [ASKED, KEEPING.(everAdmitted := true)])
  const R10 := R9.(timer := None, inflight := map[5 := InFlight(1, 0, 62, Some(1), Ready(NextCell, 7))])

  lemma Reuse5()
    ensures Next(CONFIG, S4, REUSED[4]) == R5
  {
    var s := S4.(runtimes := [ADMITTED.(completed := true)]);
    assert S4.(runtimes := S4.runtimes[0 := S4.runtimes[0].(completed := true, pendingCell := None)]) == s;
    assert SettleRuntime(s.runtimes[0], Completed) == DONE;
    assert SettleRuntimes(s.runtimes, {0}, Completed) == [DONE];
    assert Settle(s, {0}, Completed).jobs == map[];
  }

  lemma Reuse6()
    ensures Next(CONFIG, R5, REUSED[5]) == R6
  {}

  lemma Reuse7()
    ensures Next(CONFIG, R6, REUSED[6]) == R7
  {
    assert R6.inflight == map[2 := InFlight(0, 0, 12, Some(0), Producing(NextCell))];
    assert R6.inflight[2 := InFlight(0, 0, 12, Some(0), Ready(NextCell, 7))] == R7.inflight;
    assert DONE.produced + [7] == [7];
    assert R6.runtimes[0 := DONE.(produced := DONE.produced + [7])] == R7.runtimes;
  }

  lemma Cached8()
    ensures var t := R7.(inflight := map[], sends := [12]);
            CacheUnsent(t, R7.inflight[2]) == t.(runtimes := [ASKED, KEEPING])
  {}

  lemma Degraded8()
    ensures var t := R7.(inflight := map[], sends := [12], runtimes := [ASKED, KEEPING]); Degrade(CONFIG, t, 12) == R8
  {
    var carried: map<nat, nat> := map[0 := 0];
    assert carried.Values == {0} by { assert carried[0] == 0; }
    assert RequeueJobs([ASKED, KEEPING], {0}) == {};
  }

  lemma Reuse8()
    ensures Next(CONFIG, R7, REUSED[7]) == R8
  {
    assert R7.inflight - {2} == map[];
    Cached8();
    Degraded8();
  }

  lemma Interrupted8()
    ensures Drained(R8) && R8.timer == Some(Timer(50, CycleBoundary)) && R8.running && R8.status == Degraded
    ensures R8.cycle == Some(Cycle(0, 0, 50, {0}, map[], 0)) && |R8.runtimes| == 2 && R8.queued == {1}
  {}

  lemma Second9()
    ensures SecondCycle(R8, 1) == R9
  {
    assert R8.runtimes[1 := R8.runtimes[1].(everAdmitted := true)] == R9.runtimes;
  }

  lemma Reuse9()
    ensures Next(CONFIG, R8, REUSED[8]) == R9
  {
    Interrupted8();
    Second9();
    SecondOpens(R8, 1);
  }

  lemma Reuse10()
    ensures Next(CONFIG, R9, REUSED[9]) == R10
  {
    FirstSlot(50);
  }

  lemma Reuse11()
    ensures Disordered(Next(CONFIG, R10, REUSED[10]), 1)
  {
    SecondSent(CONFIG, R10, 1, 62, 7);
  }

  ghost function ReusedAfter(n: nat): State
    requires n <= 10
  {
    [INITIAL, S1, S2, S3, S4, R5, R6, R7, R8, R9, R10][n]
  }

  lemma ReusedStep(n: nat)
    requires n < 10
    ensures Next(CONFIG, ReusedAfter(n), REUSED[n]) == ReusedAfter(n + 1)
  {
    if n < 4 { StepOf(n); } else if n == 4 { Reuse5(); } else if n == 5 { Reuse6(); } else if n == 6 { Reuse7(); }
    else if n == 7 { Reuse8(); } else if n == 8 { Reuse9(); } else { Reuse10(); }
  }

  lemma {:induction false} ReusedIs(n: nat)
    requires n <= 10
    ensures After(CONFIG, INITIAL, REUSED[..n]) == ReusedAfter(n)
  {
    if n > 0 {
      ReusedIs(n - 1);
      ReusedStep(n - 1);
      AfterNext(CONFIG, REUSED, n, ReusedAfter(n - 1), ReusedAfter(n));
    }
  }

  /** Only the second `enqueue` breaks the environment's part. */
  lemma ReusedEnabled(n: nat)
    requires n <= 10 && n != 5
    ensures EnabledAt(CONFIG, REUSED, n)
  {
    ReusedIs(n);
    if n == 3 { assert S3.inflight == map[]; } else if n == 9 { assert R9.inflight == map[]; }
  }

  /**
   A lane accepted cell 7 as one of job 1, which has produced nothing, in a run whose every event but the
   `enqueue` that takes the id again is enabled.
   */
  lemma ForeignCellSent()
    ensures Monotonic(REUSED) && (forall n: nat :: n < |REUSED| && n != 5 ==> EnabledAt(CONFIG, REUSED, n))
    ensures Disordered(Run(CONFIG, REUSED), 1)
  {
    forall n: nat | n < |REUSED| && n != 5 ensures EnabledAt(CONFIG, REUSED, n) { ReusedEnabled(n); }
    ReusedIs(10);
    Reuse11();
    AfterOne(CONFIG, INITIAL, REUSED[..10], REUSED[10]);
    assert REUSED == REUSED[..10] + [REUSED[10]];
    RunIsAfter(CONFIG, REUSED);
  }
}
