/**
 `CoverScheduler` of `src/handlers/coverScheduler.ts` as an object whose methods update its fields.

 Each method is proved to change the fields exactly as the state machine prescribes. The queue is the
 sorted array of the source; loops over lanes and jobs are loops here.
 */
module CoverSchedulerObject {
  import opened Wrappers
  import opened Seqs
  import opened CoverSlots
  import opened CoverScheduler
  import opened CoverJobs
  import opened CoverQueue
  import opened CoverOrder

  // ----- one round of a loop against the whole loop

  lemma SettleInTurn(s: State, a: set<nat>, b: set<nat>, o: Outcome)
    ensures Settle(Settle(s, a, o), b, o) == Settle(s, a + b, o)
  {
    assert Settle(Settle(s, a, o), b, o).jobs == Settle(s, a + b, o).jobs;
  }

  /** Settling one job in place. */
  lemma SettleOneJob(s: State, j: nat, o: Outcome)
    requires Unsettled(s.runtimes, j) && Registered(s.runtimes, s.jobs)
    ensures var t := Settle(s, {j}, o);
            && t.runtimes == s.runtimes[j := SettleRuntime(s.runtimes[j], o)]
            && t.jobs == s.jobs - {s.runtimes[j].job.id}
            && Registered(t.runtimes, t.jobs)
  {
    var t := Settle(s, {j}, o);
    assert t.runtimes == s.runtimes[j := SettleRuntime(s.runtimes[j], o)];
    assert t.jobs == s.jobs - {s.runtimes[j].job.id};
    assert forall i: nat :: Unsettled(t.runtimes, i) <==> Unsettled(s.runtimes, i) && i != j;
  }

  lemma StopInTurn(s: State, id: string)
    requires id in s.jobs && Registered(s.runtimes, s.jobs)
    ensures var t := Settle(s, {s.jobs[id]}, Failed);
            |t.jobs| < |s.jobs| && Settle(t, t.jobs.Values, Failed) == Settle(s, s.jobs.Values, Failed)
  {
    var j := s.jobs[id];
    var t := Settle(s, {j}, Failed);
    SettleOneJob(s, j, Failed);
    SettleInTurn(s, {j}, t.jobs.Values, Failed);
    assert s.jobs.Values == {j} + t.jobs.Values by {
      forall i | i in s.jobs.Values ensures i in {j} + t.jobs.Values {
        var k :| k in s.jobs && s.jobs[k] == i;
        if k != id { assert t.jobs[k] == i; }
      }
    }
  }

  lemma SettleNone(s: State)
    requires s.jobs == map[]
    ensures Settle(s, {}, Failed) == s && s.jobs.Values == {}
  {
    assert SettleRuntimes(s.runtimes, {}, Failed) == s.runtimes;
    assert Settle(s, {}, Failed).jobs == s.jobs;
  }

  /** `carried` without one of its lanes. */
  lemma LaneRemoved(carried: map<nat, nat>, l: nat)
    requires l in carried
    ensures carried.Values == (carried - {l}).Values + {carried[l]}
  {
    forall v | v in carried.Values ensures v in (carried - {l}).Values + {carried[l]} {
      var k :| k in carried && carried[k] == v;
      if k != l { assert (carried - {l})[k] == v; }
    }
  }

  /** One lane gives up its job. */
  ghost function InterruptLane(s: State, l: nat): State
    requires s.cycle.Some? && l in s.cycle.value.carried
  {
    var cycle := s.cycle.value;
    s.(cycle := Some(cycle.(carried := cycle.carried - {l})),
        queued := s.queued + RequeueJobs(s.runtimes, {cycle.carried[l]}))
  }

  lemma InterruptInTurn(s: State, l: nat)
    requires s.cycle.Some? && l in s.cycle.value.carried
    ensures Interrupt(InterruptLane(s, l)) == Interrupt(s)
  {
    LaneRemoved(s.cycle.value.carried, l);
    assert Interrupt(InterruptLane(s, l)).queued == Interrupt(s).queued;
  }

  lemma InterruptDone(s: State)
    requires s.cycle.Some? && s.cycle.value.carried == map[]
    ensures Interrupt(s) == s && Finalize(s) == s
  {
    assert SettleRuntimes(s.runtimes, {}, Failed) == s.runtimes;
    assert SpentJobs(s.runtimes, s.cycle.value.carried.Values) == {};
    assert Settle(s, {}, Failed).jobs == s.jobs;
  }

  /** The job of one lane has used up its lane, or still has a cancel cell to send. */
  ghost function FinalizeLane(s: State, l: nat): State
    requires s.cycle.Some? && l in s.cycle.value.carried
  {
    var cycle := s.cycle.value;
    var t := Settle(s, SpentJobs(s.runtimes, {cycle.carried[l]}), Failed);
    t.(cycle := Some(cycle.(carried := cycle.carried - {l})),
        queued := t.queued + PendingCancels(s.runtimes, {cycle.carried[l]}))
  }

  lemma SpentInTurn(rs: seq<Runtime>, a: set<nat>, b: set<nat>)
    ensures var qs := SettleRuntimes(rs, SpentJobs(rs, a), Failed);
            && SpentJobs(rs, a) + SpentJobs(qs, b) == SpentJobs(rs, a + b)
            && PendingCancels(qs, b) == PendingCancels(rs, b)
            && PendingCancels(rs, a) + PendingCancels(rs, b) == PendingCancels(rs, a + b)
            && PendingCancels(rs, a + b) * SpentJobs(rs, a + b) == {}
  {}

  lemma FinalizeInTurn(s: State, l: nat)
    requires s.cycle.Some? && l in s.cycle.value.carried
    ensures Finalize(FinalizeLane(s, l)) == Finalize(s)
  {
    var cycle := s.cycle.value;
    var a, b := {cycle.carried[l]}, (cycle.carried - {l}).Values;
    LaneRemoved(cycle.carried, l);
    SpentInTurn(s.runtimes, a, b);
    assert b + a == a + b;
    var t, u := FinalizeLane(s, l), Settle(s, SpentJobs(s.runtimes, a), Failed);
    SettleInTurn(s, SpentJobs(s.runtimes, a), SpentJobs(u.runtimes, b), Failed);
    assert Finalize(t).runtimes == Finalize(s).runtimes;
    assert Finalize(t).jobs == Finalize(s).jobs;
    assert Finalize(t).queued == Finalize(s).queued;
  }

  lemma FinalizeCases(s: State, l: nat)
    requires Registered(s.runtimes, s.jobs) && s.cycle.Some? && l in s.cycle.value.carried
    requires LanesOk(s.runtimes, s.cycle.value.carried)
    ensures var j, cycle := s.cycle.value.carried[l], s.cycle.value.(carried := s.cycle.value.carried - {l});
            FinalizeLane(s, l) ==
              if s.runtimes[j].settled then s.(cycle := Some(cycle))
              else if CancelPending(s.runtimes[j])
                  then s.(cycle := Some(cycle), queued := s.queued + RequeueJobs(s.runtimes, {j}))
              else Settle(s, {j}, Failed).(cycle := Some(cycle))
  {
    var j := s.cycle.value.carried[l];
    assert SettleRuntimes(s.runtimes, {}, Failed) == s.runtimes;
    assert Settle(s, {}, Failed).jobs == s.jobs;
    if Unsettled(s.runtimes, j) && !CancelPending(s.runtimes[j]) {
      assert SpentJobs(s.runtimes, {j}) == {j} && PendingCancels(s.runtimes, {j}) == {};
    } else {
      assert SpentJobs(s.runtimes, {j}) == {};
      assert PendingCancels(s.runtimes, {j}) == if s.runtimes[j].settled then {} else RequeueJobs(s.runtimes, {j});
    }
  }

  // ----- selecting jobs for lanes

  ghost function ValuesBelow(m: map<nat, nat>, n: nat): set<nat> { set l | l in m && l < n :: m[l] }

  lemma BelowNext(m: map<nat, nat>, n: nat)
    ensures ValuesBelow(m, n + 1) == ValuesBelow(m, n) + (if n in m then {m[n]} else {})
  {}

  lemma AdmitMore(rs: seq<Runtime>, js: set<nat>, j: nat)
    requires j < |rs|
    ensures Admit(rs, js + {j}) == Admit(rs, js)[j := Admit(rs, js)[j].(everAdmitted := true)]
  {}

  lemma ChosenMore(m: map<nat, nat>, l: nat, j: nat)
    requires l !in m
    ensures m[l := j].Values == m.Values + {j}
  {
    var n := m[l := j];
    assert n[l] == j;
    forall v | v in m.Values ensures v in n.Values {
      var k :| k in m && m[k] == v;
      assert n[k] == v;
    }
  }

  lemma SelectStep(rs: seq<Runtime>, q: set<nat>, chosen: map<nat, nat>, lane: nat, lanes: nat)
    requires q != {} && lane < lanes && (forall j :: j in q ==> j < |rs|) && forall l :: l in chosen ==> l < lane
    ensures var j := First(rs, q);
            chosen[lane := j] + Select(rs, q - {j}, lane + 1, lanes) == chosen + Select(rs, q, lane, lanes)
  {
    var j := First(rs, q);
    SelectTakesFirst(rs, q - {j}, lane + 1, lanes);
  }

  lemma SelectBounds(rs: seq<Runtime>, q: set<nat>, lanes: nat)
    requires forall j :: j in q ==> j < |rs|
    ensures forall l :: l in Select(rs, q, 0, lanes) ==> Select(rs, q, 0, lanes)[l] < |rs| && l < lanes
  {
    SelectTakesFirst(rs, q, 0, lanes);
    var m := Select(rs, q, 0, lanes);
    assert forall l :: l in m ==> m[l] in m.Values;
  }

  /** The lanes whose factory succeeds are opened; any failure fails the cycle. */
  method OpenLanes(lanes: nat, opens: set<nat>) returns (lanesOpen: set<nat>, failed: bool)
    ensures lanesOpen == LanesBelow(lanes) * opens && (failed <==> !(LanesBelow(lanes) <= opens))
  {
    lanesOpen, failed := {}, false;
    for lane := 0 to lanes
      invariant lanesOpen == LanesBelow(lane) * opens && (failed <==> !(LanesBelow(lane) <= opens))
    {
      if lane in opens { lanesOpen := lanesOpen + {lane}; } else { failed := true; }
    }
  }

  lemma SortedOrderable(s: State, q: seq<nat>)
    requires QueueOk(s.runtimes, q) && s.queued == Members(q)
    ensures Orderable(s)
  {}

  class Scheduler {
    const config: Config
    var status: Status
    var running: bool
    var generation: nat
    var timer: Option<Timer>
    var cycle: Option<Cycle>
    var queued: seq<nat>
    var jobs: map<string, nat>
    var runtimes: seq<Runtime>
    var inflight: map<nat, InFlight>
    var cyclesOpened: nat
    ghost var closed: seq<nat>
    ghost var sends: seq<int>
    ghost var starts: seq<int>

    ghost function View(): State
      reads this
    {
      State(status, running, generation, timer, cycle, Members(queued), jobs, runtimes, inflight, cyclesOpened, closed,
          sends, starts)
    }

    ghost predicate Sorted()
      reads this
    {
      QueueOk(runtimes, queued)
    }

    ghost predicate Valid()
      reads this
    {
      Sorted() && Inv(View())
    }

    constructor (config: Config)
      ensures Valid() && View() == INITIAL && this.config == config
    {
      this.config := config;
      status, running, generation, timer, cycle := Stopped, false, 0, None, None;
      queued, jobs, runtimes, inflight, cyclesOpened := [], map[], [], map[], 0;
      closed, sends, starts := [], [], [];
    }

    // ----- private helpers

    method RemoveQueued(j: nat)
      requires Sorted()
      modifies this`queued
      ensures Sorted() && View() == old(View()).(queued := old(View()).queued - {j})
    {
      WithoutOk(runtimes, queued, j);
      queued := Without(queued, j);
    }

    method SettleJob(j: nat, o: Outcome)
      requires Sorted() && Unsettled(runtimes, j) && Registered(runtimes, jobs)
      modifies this`queued, this`runtimes, this`jobs
      ensures Sorted() && Registered(runtimes, jobs) && View() == Settle(old(View()), {j}, o)
    {
      SettleOneJob(View(), j, o);
      RemoveQueued(j);
      var id := runtimes[j].job.id;
      OrderStays(runtimes, runtimes[j := SettleRuntime(runtimes[j], o)], queued);
      runtimes := runtimes[j := SettleRuntime(runtimes[j], o)];
      if id in jobs && jobs[id] == j { jobs := jobs - {id}; }
    }

    method Requeue(j: nat)
      requires Sorted() && j < |runtimes|
      modifies this`queued
      ensures Sorted() && View() == old(View()).(queued := old(View()).queued + RequeueJobs(runtimes, {j}))
    {
      if !Requeueable(runtimes[j]) {
        assert RequeueJobs(runtimes, {j}) == {};
        return;
      }
      assert RequeueJobs(runtimes, {j}) == {j};
      if j !in queued {
        NoDupAppend(queued, j);
        queued := queued + [j];
      }
      SortOk(runtimes, queued);
      queued := Sort(runtimes, queued);
    }

    method InterruptCycle()
      requires Sorted() && (cycle.Some? ==> LanesOk(runtimes, cycle.value.carried))
      modifies this`queued, this`cycle
      ensures Sorted() && View() == Interrupt(old(View()))
    {
      if cycle.None? { return; }
      while cycle.value.carried != map[]
        invariant Sorted() && cycle.Some? && LanesOk(runtimes, cycle.value.carried)
        invariant Interrupt(View()) == Interrupt(old(View()))
        decreases |cycle.value.carried|
      {
        ghost var s := View();
        var l :| l in cycle.value.carried;
        var j := cycle.value.carried[l];
        cycle := Some(cycle.value.(carried := cycle.value.carried - {l}));
        Requeue(j);
        InterruptInTurn(s, l);
        assert View() == InterruptLane(s, l);
      }
      InterruptDone(View());
    }

    method FinalizeCycleJobs()
      requires Sorted() && Registered(runtimes, jobs) && (cycle.Some? ==> LanesOk(runtimes, cycle.value.carried))
      modifies this`queued, this`cycle, this`runtimes, this`jobs
      ensures Sorted() && View() == Finalize(old(View()))
    {
      if cycle.None? { return; }
      while cycle.value.carried != map[]
        invariant Sorted() && Registered(runtimes, jobs) && cycle.Some? && LanesOk(runtimes, cycle.value.carried)
        invariant Finalize(View()) == Finalize(old(View()))
        decreases |cycle.value.carried|
      {
        ghost var s := View();
        var l :| l in cycle.value.carried;
        FinalizeInTurn(s, l);
        FinalizeOne(l);
      }
      InterruptDone(View());
    }

    method FinalizeOne(l: nat)
      requires Sorted() && Registered(runtimes, jobs) && cycle.Some? && l in cycle.value.carried
      requires LanesOk(runtimes, cycle.value.carried)
      modifies this`queued, this`cycle, this`runtimes, this`jobs
      ensures Sorted() && Registered(runtimes, jobs) && cycle.Some? && LanesOk(runtimes, cycle.value.carried)
      ensures View() == FinalizeLane(old(View()), l)
      ensures |cycle.value.carried| < |old(cycle).value.carried|
    {
      var j := cycle.value.carried[l];
      FinalizeCases(View(), l);
      cycle := Some(cycle.value.(carried := cycle.value.carried - {l}));
      if !runtimes[j].settled {
        if CancelPending(runtimes[j]) { Requeue(j); } else { SettleJob(j, Failed); }
      }
    }

    method CloseCurrentCycle()
      modifies this`cycle, this`closed
      ensures View() == Close(old(View()))
    {
      if cycle.Some? {
        closed := closed + [cycle.value.serial];
        cycle := None;
      }
    }

    method DisarmTimer()
      modifies this`generation, this`timer
      ensures View() == Disarm(old(View()))
    {
      generation, timer := generation + 1, None;
    }

    method ArmTimer(deadline: int, kind: TimerKind)
      modifies this`generation, this`timer
      ensures View() == Arm(old(View()), deadline, kind)
    {
      DisarmTimer();
      timer := Some(Timer(deadline, kind));
    }

    /** Wait for the end of the open cycle, or close it if that has passed. */
    method AwaitCycleEnd(now: int)
      requires cycle.Some?
      modifies this`generation, this`timer, this`cycle, this`closed
      ensures View() == AwaitEnd(old(View()), now)
    {
      if now <= cycle.value.end { ArmTimer(cycle.value.end, CycleBoundary); } else { CloseCurrentCycle(); }
    }

    // ----- public calls

    /** The ids of the queued jobs, in the order in which lanes will take them. */
    method GetQueuedJobIds() returns (ids: seq<string>)
      requires Valid()
      ensures |ids| == |queued| && forall i :: 0 <= i < |ids| ==> ids[i] in jobs && jobs[ids[i]] == queued[i]
      ensures forall a, b :: 0 <= a < b < |queued| ==> GoesFirst(runtimes, queued[a], queued[b])
    {
      QueueByFields(runtimes, queued);
      ids := [];
      for i := 0 to |queued|
        invariant |ids| == i && forall k :: 0 <= k < i ==> ids[k] in jobs && jobs[ids[k]] == queued[k]
      {
        assert queued[i] in Members(queued) && Unsettled(runtimes, queued[i]);
        ids := ids + [runtimes[queued[i]].job.id];
      }
    }

    method Push(job: Job)
      requires Sorted()
      modifies this`queued, this`jobs, this`runtimes
      ensures Sorted() && jobs == old(jobs)[job.id := |old(runtimes)|]
      ensures runtimes == old(runtimes) + [Runtime(job, false, 0, false, false, false, false, None, None, [], [], [])]
      ensures Members(queued) == Members(old(queued)) + {|old(runtimes)|}
    {
      var n := |runtimes|;
      assert n !in queued;
      NoDupAppend(queued, n);
      jobs := jobs[job.id := n];
      runtimes := runtimes + [Runtime(job, false, 0, false, false, false, false, None, None, [], [], [])];
      SortOk(runtimes, queued + [n]);
      queued := Sort(runtimes, queued + [n]);
    }

    method Enqueue(job: Job) returns (ok: bool)
      requires Valid()
      modifies this`queued, this`jobs, this`runtimes
      ensures Valid() && ok == CoverScheduler.Enqueue(config, old(View()), job).Some?
      ensures View() == if ok then CoverScheduler.Enqueue(config, old(View()), job).value else old(View())
    {
      ok := !(job.id == "" || job.id in jobs || job.declared < 1 || job.declared > config.schedule.SlotsPerLane());
      if ok {
        EnqueueKeeps(config, View(), job);
        Push(job);
        assert View() == CoverScheduler.Enqueue(config, old(View()), job).value;
      }
    }

    method Cancel(id: string) returns (r: CancelResult)
      requires Valid()
      modifies this`queued, this`jobs, this`runtimes
      ensures Valid() && (View(), r) == CoverScheduler.Cancel(old(View()), id)
    {
      CancelKeeps(View(), id);
      if id !in jobs { return NotFound; }
      var j := jobs[id];
      if !runtimes[j].everAdmitted {
        SettleJob(j, CancelledBeforeAdmission);
        return BeforeAdmission;
      }
      if !runtimes[j].job.cancellable { return Refused; }
      RequestCancel(j);
      return Pending;
    }

    method RequestCancel(j: nat)
      requires Sorted() && j < |runtimes|
      modifies this`queued, this`runtimes
      ensures Sorted() && View() ==
          old(View()).(runtimes := old(runtimes)[j := old(runtimes)[j].(cancelRequested := true, completed := false)])
    {
      runtimes := runtimes[j := runtimes[j].(cancelRequested := true, completed := false)];
      SortOk(runtimes, queued);
      queued := Sort(runtimes, queued);
    }

    method FinishJob(j: nat, r: Runtime, o: Outcome)
      requires Sorted() && Registered(runtimes, jobs) && Unsettled(runtimes, j)
      requires !r.settled && r.job == runtimes[j].job && r.cancelRequested == runtimes[j].cancelRequested
      modifies this`queued, this`jobs, this`runtimes
      ensures Sorted() && View() == Settle(old(View()).(runtimes := old(runtimes)[j := r]), {j}, o)
    {
      var rs := runtimes[j := r];
      assert forall i: nat :: Unsettled(rs, i) <==> Unsettled(runtimes, i);
      OrderStays(runtimes, rs, queued);
      runtimes := rs;
      SettleJob(j, o);
    }

    method Complete(id: string) returns (done: bool)
      requires Valid()
      modifies this`queued, this`jobs, this`runtimes
      ensures Valid() && (View(), done) == CoverScheduler.Complete(old(View()), id)
    {
      CompleteKeeps(View(), id);
      if id !in jobs { return false; }
      var j := jobs[id];
      FinishJob(j, runtimes[j].(completed := true, pendingCell := None), Completed);
      return true;
    }

    method Start(now: int) returns (done: bool)
      requires Valid()
      modifies this`running, this`status, this`generation, this`timer
      ensures Valid() && done == (old(status) == Stopped) && View() == CoverScheduler.Start(config, old(View()), now)
    {
      StartKeeps(config, View(), now);
      if status != Stopped { return false; }
      running, status := true, Starting;
      if cycle.Some? {
        ArmTimer(cycle.value.end, CycleBoundary);
      } else {
        ArmTimer(NextBoundary(config.schedule, now, true), OpenBoundary);
      }
      return true;
    }

    method Suspend(now: int) returns (done: bool)
      requires Valid()
      modifies this`status, this`generation, this`timer, this`queued, this`cycle, this`closed
      ensures Valid() && done == (old(status) != Stopped && old(status) != Suspended)
      ensures View() == CoverScheduler.Suspend(old(View()), now)
    {
      SuspendKeeps(View(), now);
      if status == Stopped || status == Suspended { return false; }
      DisarmTimer();
      status := Suspended;
      if cycle.Some? {
        InterruptCycle();
        AwaitCycleEnd(now);
      }
      return true;
    }

    method ResumeNow(now: int)
      requires status == Suspended
      modifies this`running, this`status, this`generation, this`timer, this`cycle, this`closed
      ensures View() == CoverScheduler.Resume(config, old(View()), now)
    {
      running := true;
      DisarmTimer();
      status := Starting;
      if cycle.Some? && now < cycle.value.end {
        ArmTimer(cycle.value.end, CycleBoundary);
      } else {
        CloseCurrentCycle();
        ArmTimer(NextBoundary(config.schedule, now, false), OpenBoundary);
      }
    }

    method Resume(now: int) returns (done: bool)
      requires Valid()
      modifies this`running, this`status, this`generation, this`timer, this`cycle, this`closed
      ensures Valid() && done == (old(status) == Suspended) && View() == CoverScheduler.Resume(config, old(View()), now)
    {
      ResumeKeeps(config, View(), now);
      done := status == Suspended;
      if done { ResumeNow(now); }
    }

    /** Every registered job fails. */
    method SettleAll()
      requires Sorted() && Registered(runtimes, jobs)
      modifies this`queued, this`runtimes, this`jobs
      ensures Sorted() && View() == Settle(old(View()), old(View()).jobs.Values, Failed)
    {
      while jobs != map[]
        invariant Sorted() && Registered(runtimes, jobs)
        invariant Settle(View(), jobs.Values, Failed) == Settle(old(View()), old(View()).jobs.Values, Failed)
        decreases |jobs|
      {
        var id :| id in jobs;
        var j := jobs[id];
        StopInTurn(View(), id);
        SettleJob(j, Failed);
      }
      SettleNone(View());
    }

    method StopNow(now: int)
      requires Sorted() && Registered(runtimes, jobs) && (status != Stopped || cycle.Some?)
      modifies this
      ensures Sorted() && View() == CoverScheduler.Stop(old(View()), now)
    {
      running := false;
      DisarmTimer();
      status := Stopped;
      SettleAll();
      ghost var halted := Disarm(old(View())).(running := false, status := Stopped);
      assert View() == Settle(halted, halted.jobs.Values, Failed);
      if cycle.Some? { ClearCycle(now); }
    }

    method ClearCycle(now: int)
      requires cycle.Some?
      modifies this`generation, this`timer, this`cycle, this`closed
      ensures View() == AwaitEnd(old(View()).(cycle := Some(old(cycle).value.(carried := map[]))), now)
    {
      cycle := Some(cycle.value.(carried := map[]));
      AwaitCycleEnd(now);
    }

    method Stop(now: int) returns (done: bool)
      requires Valid()
      modifies this
      ensures Valid() && done == (old(status) != Stopped || old(cycle).Some?)
          && View() == CoverScheduler.Stop(old(View()), now)
    {
      StopKeeps(View(), now);
      done := status != Stopped || cycle.Some?;
      if done { StopNow(now); }
    }

    method Degrade(now: int)
      requires Valid()
      modifies this`status, this`generation, this`timer, this`queued, this`cycle, this`closed
      ensures Valid() && View() == CoverScheduler.Degrade(config, old(View()), now)
    {
      DegradeKeeps(config, View(), now);
      if status == Stopped || status == Suspended { return; }
      DisarmTimer();
      status := Degraded;
      InterruptCycle();
      if cycle.Some? && now <= cycle.value.end {
        ArmTimer(cycle.value.end, CycleBoundary);
      } else {
        CloseCurrentCycle();
        if running { ArmTimer(NextBoundary(config.schedule, now, false), OpenBoundary); }
      }
    }

    // ----- opening and ending cycles

    /** Fill the lanes in order from the front of the queue. */
    method SelectJobs() returns (chosen: map<nat, nat>)
      requires Sorted()
      modifies this`queued
      ensures Sorted() && (forall j :: j in Members(old(queued)) ==> j < |runtimes|)
      ensures chosen == Select(runtimes, Members(old(queued)), 0, config.schedule.lanes)
      ensures Members(queued) == Members(old(queued)) - chosen.Values
    {
      chosen := map[];
      ghost var q := Members(queued);
      assert forall j :: j in q ==> j < |runtimes|;
      for lane := 0 to config.schedule.lanes
        invariant Sorted() && (forall l :: l in chosen ==> l < lane) && Members(queued) == q - chosen.Values
        invariant chosen + Select(runtimes, Members(queued), lane, config.schedule.lanes) ==
            Select(runtimes, q, 0, config.schedule.lanes)
      {
        if queued != [] {
          var j := queued[0];
          HeadIsFirst(runtimes, queued);
          TailOk(runtimes, queued);
          ChosenMore(chosen, lane, j);
          SelectStep(runtimes, Members(queued), chosen, lane, config.schedule.lanes);
          chosen := chosen[lane := j];
          queued := queued[1..];
        }
      }
    }

    method AdmitJobs(chosen: map<nat, nat>)
      requires Sorted() && forall l :: l in chosen ==> chosen[l] < |runtimes|
      requires forall l :: l in chosen ==> l < config.schedule.lanes
      modifies this`runtimes
      ensures Sorted() && runtimes == Admit(old(runtimes), chosen.Values)
    {
      for lane := 0 to config.schedule.lanes
        invariant runtimes == Admit(old(runtimes), ValuesBelow(chosen, lane))
      {
        BelowNext(chosen, lane);
        if lane in chosen {
          AdmitMore(old(runtimes), ValuesBelow(chosen, lane), chosen[lane]);
          runtimes := runtimes[chosen[lane] := runtimes[chosen[lane]].(everAdmitted := true)];
        }
      }
      assert ValuesBelow(chosen, config.schedule.lanes) == chosen.Values;
      OrderStays(old(runtimes), runtimes, queued);
    }

    method RequeueAll(chosen: map<nat, nat>)
      requires Sorted() && forall l :: l in chosen ==> chosen[l] < |runtimes|
      requires forall l :: l in chosen ==> l < config.schedule.lanes
      modifies this`queued
      ensures Sorted() && View() == old(View()).(queued := old(View()).queued + RequeueJobs(runtimes, chosen.Values))
    {
      for lane := 0 to config.schedule.lanes
        invariant Sorted() && View() ==
            old(View()).(queued := old(View()).queued + RequeueJobs(runtimes, ValuesBelow(chosen, lane)))
      {
        if lane in chosen { Requeue(chosen[lane]); }
        BelowNext(chosen, lane);
      }
      assert ValuesBelow(chosen, config.schedule.lanes) == chosen.Values;
    }

    /** Take jobs off the queue for the lanes of a new cycle. */
    method TakeJobs() returns (chosen: map<nat, nat>)
      requires Sorted()
      modifies this`queued, this`runtimes
      ensures Sorted() && old(Orderable(View()))
      ensures chosen == Select(old(runtimes), old(View()).queued, 0, config.schedule.lanes)
      ensures View() == Admitted(old(View()), chosen)
      ensures forall l :: l in chosen ==> chosen[l] < |runtimes| && l < config.schedule.lanes
    {
      SortedOrderable(View(), queued);
      chosen := SelectJobs();
      SelectBounds(old(runtimes), Members(old(queued)), config.schedule.lanes);
      AdmitJobs(chosen);
    }

    /** The lanes of a new cycle, before its first timer is armed. */
    method OpenAll(boundary: int, opens: set<nat>)
      requires Sorted()
      modifies this`queued, this`runtimes, this`cycle, this`status, this`cyclesOpened, this`starts
      ensures Sorted() && old(Orderable(View())) && View() == Opened(config, old(View()), boundary, opens)
    {
      var chosen := TakeJobs();
      InstallCycle(boundary, opens, chosen);
    }

    method InstallCycle(boundary: int, opens: set<nat>, chosen: map<nat, nat>)
      requires Sorted() && forall l :: l in chosen ==> chosen[l] < |runtimes| && l < config.schedule.lanes
      modifies this`queued, this`cycle, this`status, this`cyclesOpened, this`starts
      ensures Sorted() && View() == Installed(config, old(View()), boundary, opens, chosen)
    {
      var lanes, failed := OpenLanes(config.schedule.lanes, opens);
      var open := Cycle(cyclesOpened, boundary, boundary + config.schedule.CycleMs(), lanes, map[], 0);
      starts, cyclesOpened := starts + [boundary], cyclesOpened + 1;
      if failed {
        cycle, status := Some(open), Degraded;
        RequeueAll(chosen);
      } else {
        cycle, status := Some(open.(carried := chosen)), Active;
      }
    }

    method OpenCycle(boundary: int, opens: set<nat>)
      requires Sorted()
      modifies this`queued, this`runtimes, this`cycle, this`status, this`cyclesOpened, this`starts, this`generation,
          this`timer
      ensures Sorted() && old(Orderable(View()))
      ensures View() == CoverScheduler.OpenCycle(config, old(View()), boundary, opens)
    {
      SortedOrderable(View(), queued);
      if !running || status == Stopped || status == Suspended { return; }
      OpenAll(boundary, opens);
      if status == Active {
        ArmTimer(SlotAt(config.schedule, cycle.value.start, cycle.value.nextSlot).deadline, SlotDeadline);
      } else {
        ArmTimer(cycle.value.end, CycleBoundary);
      }
    }

    method HandleCycleBoundary(boundary: int, now: int, closeOk: bool, opens: set<nat>)
      requires Sorted() && Registered(runtimes, jobs) && (cycle.Some? ==> LanesOk(runtimes, cycle.value.carried))
      modifies this
      ensures Sorted() && old(Orderable(View()))
      ensures View() == EndCycle(config, old(View()), boundary, now, closeOk, opens)
    {
      SortedOrderable(View(), queued);
      if cycle.None? || cycle.value.end != boundary { return; }
      FinalizeCycleJobs();
      CloseCurrentCycle();
      if !closeOk {
        if status != Stopped { status := Degraded; }
        if running { ArmTimer(NextBoundary(config.schedule, now, false), OpenBoundary); }
      } else {
        OpenCycle(boundary, opens);
      }
    }

    method HandleLateTimer(kind: TimerKind, now: int)
      requires Valid() && Idle(View())
      modifies this`status, this`generation, this`timer, this`queued, this`cycle, this`closed
      ensures Valid() && View() == LateTimer(config, old(View()), kind, now)
    {
      LateTimerKeeps(config, View(), kind, now);
      if kind == SlotDeadline {
        Degrade(now);
      } else {
        InterruptCycle();
        CloseCurrentCycle();
        if status != Stopped { status := Suspended; }
      }
    }

    // ----- slots

    method SendSlot(now: int)
      requires Valid() && Idle(View())
      modifies this`status, this`generation, this`timer, this`queued, this`cycle, this`closed, this`inflight
      ensures Valid() && View() == BeginSlot(config, old(View()), now)
    {
      BeginSlotKeeps(config, View(), now);
      if cycle.None? || status != Active { return; }
      var slot := SlotAt(config.schedule, cycle.value.start, cycle.value.nextSlot);
      if slot.lane !in cycle.value.lanes {
        Degrade(now);
      } else {
        var lane := slot.lane as nat;
        var job := if lane in cycle.value.carried then Some(cycle.value.carried[lane]) else None;
        var stage := if job.Some? && job.value < |runtimes| then FirstStage(runtimes[job.value])
            else Producing(DummyCell);
        inflight := inflight[generation := InFlight(cycle.value.serial, lane, slot.deadline, job, stage)];
      }
    }

    /** The timer's callback. */
    method Fire(now: int, opens: set<nat>, closeOk: bool)
      requires Valid()
      modifies this
      ensures Valid() && old(Orderable(View())) && View() == Tick(config, old(View()), now, opens, closeOk)
    {
      InvOrderable(View());
      TickKeeps(config, View(), now, opens, closeOk);
      if timer.None? || now < timer.value.deadline { return; }
      var deadline, kind := timer.value.deadline, timer.value.kind;
      SameKeeps(View(), View().(timer := None));
      timer := None;
      if now > deadline + config.drift {
        HandleLateTimer(kind, now);
      } else {
        match kind
        case OpenBoundary => OpenCycle(deadline, opens);
        case CycleBoundary => HandleCycleBoundary(deadline, now, closeOk, opens);
        case SlotDeadline => SendSlot(now);
      }
    }

    method CacheUnsent(f: InFlight)
      requires Sorted() && f.stage.Ready?
      modifies this`runtimes
      ensures Sorted() && View() == CoverScheduler.CacheUnsent(old(View()), f)
    {
      var onLane := if cycle.Some? && cycle.value.serial == f.serial && f.lane in cycle.value.carried
          then Some(cycle.value.carried[f.lane]) else None;
      var target := if f.job.Some? && f.job.value < |runtimes| && runtimes[f.job.value].job.id in jobs
                    then Some(jobs[runtimes[f.job.value].job.id]) else onLane;
      if target.None? || !Unsettled(runtimes, target.value) { return; }
      var rs := runtimes[target.value := WithUnsent(runtimes[target.value], f.stage)];
      OrderStays(runtimes, rs, queued);
      runtimes := rs;
    }

    method AcceptSent(f: InFlight)
      requires Sorted() && Registered(runtimes, jobs) && f.stage.Ready?
      modifies this`runtimes, this`queued, this`jobs
      ensures Sorted() && View() == CoverScheduler.AcceptSent(old(View()), f)
    {
      if cycle.None? || cycle.value.serial != f.serial || f.lane !in cycle.value.carried { return; }
      var j := cycle.value.carried[f.lane];
      if !Unsettled(runtimes, j) { return; }
      var r := AfterSent(runtimes[j], f.stage.source);
      if f.stage.source == CancelCell {
        FinishJob(j, r, Cancelled);
      } else if f.stage.source == NextCell && runtimes[j].sentCells + 1 == runtimes[j].job.declared {
        FinishJob(j, r, Completed);
      } else {
        OrderStays(runtimes, runtimes[j := r], queued);
        runtimes := runtimes[j := r];
      }
    }

    method RecordAccepted(f: InFlight)
      requires Sorted() && Registered(runtimes, jobs) && f.stage.Ready?
      modifies this`runtimes
      ensures Sorted() && Registered(runtimes, jobs) && View() == CoverScheduler.RecordAccepted(old(View()), f)
    {
      if f.stage.source == NextCell && f.job.Some? && f.job.value < |runtimes| {
        var j := f.job.value;
        var rs := runtimes[j := runtimes[j].(accepted := runtimes[j].accepted + [f.stage.cell])];
        OrderStays(runtimes, rs, queued);
        assert forall i: nat :: Unsettled(rs, i) <==> Unsettled(runtimes, i);
        runtimes := rs;
      }
    }

    method ArmNextSlot(f: InFlight)
      modifies this`generation, this`timer, this`cycle
      ensures View() == NextSlot(config, old(View()), f)
    {
      if cycle.None? || cycle.value.serial != f.serial { return; }
      cycle := Some(cycle.value.(nextSlot := cycle.value.nextSlot + 1));
      if cycle.value.nextSlot < config.schedule.CycleSlots() {
        ArmTimer(SlotAt(config.schedule, cycle.value.start, cycle.value.nextSlot).deadline, SlotDeadline);
      } else {
        ArmTimer(cycle.value.end, CycleBoundary);
      }
    }

    /** The second half of `sendSlot`: send the request of generation `g`, or keep its cell. */
    method SendReady(g: nat, now: int, transport: Transport)
      requires Valid() && g in inflight && inflight[g].stage.Ready?
      modifies this
      ensures Valid() && View() == Continue(config, old(View()), g, now, transport)
    {
      ghost var s := View();
      ContinueKeeps(config, s, g, now, transport);
      var f := inflight[g];
      DropInFlight(s, g);
      inflight := inflight - {g};
      if g != generation {
        CacheUnsent(f);
      } else if now > f.deadline + config.drift {
        KeepCell(f, now);
      } else {
        SendCell(f, now, transport);
      }
    }

    method SendCell(f: InFlight, now: int, transport: Transport)
      requires Valid() && f.stage.Ready?
      modifies this
      ensures Sorted()
      ensures var u := old(View()).(sends := old(sends) + [f.deadline]);
              View() == if transport != Accepted
                  then CoverScheduler.Degrade(config, CoverScheduler.CacheUnsent(u, f), now)
                        else NextSlot(config, CoverScheduler.AcceptSent(CoverScheduler.RecordAccepted(u, f), f), f)
    {
      SameKeeps(View(), View().(sends := sends + [f.deadline]));
      sends := sends + [f.deadline];
      Transmit(f, now, transport);
    }

    /** The slot is lost: its cell waits for the job's next slot. */
    method KeepCell(f: InFlight, now: int)
      requires Valid() && f.stage.Ready?
      modifies this
      ensures Sorted() && View() == CoverScheduler.Degrade(config, CoverScheduler.CacheUnsent(old(View()), f), now)
    {
      CacheUnsentKeeps(View(), f);
      CacheUnsent(f);
      Degrade(now);
    }

    method Transmit(f: InFlight, now: int, transport: Transport)
      requires Valid() && f.stage.Ready?
      modifies this
      ensures Sorted()
      ensures transport != Accepted ==>
                View() == CoverScheduler.Degrade(config, CoverScheduler.CacheUnsent(old(View()), f), now)
      ensures transport == Accepted ==>
                var taken := CoverScheduler.AcceptSent(CoverScheduler.RecordAccepted(old(View()), f), f);
                View() == NextSlot(config, taken, f)
    {
      if transport != Accepted {
        KeepCell(f, now);
      } else {
        RecordAccepted(f);
        AcceptSent(f);
        ArmNextSlot(f);
      }
    }

    /** A producer answers the request of generation `g`. */
    method TakeProduced(g: nat, p: Production, now: int)
      requires Valid() && g in inflight && inflight[g].stage.Producing?
      modifies this
      ensures Valid() && View() == Produce(config, old(View()), g, p, now)
    {
      ProduceKeeps(config, View(), g, p, now);
      var f := inflight[g];
      var want := f.stage.want;
      if p.Cell? {
        inflight := inflight[g := f.(stage := Ready(want, p.cell))];
        if want == NextCell && f.job.Some? && f.job.value < |runtimes| {
          var r := runtimes[f.job.value];
          var rs := runtimes[f.job.value := r.(produced := r.produced + [p.cell])];
          OrderStays(runtimes, rs, queued);
          runtimes := rs;
        }
      } else if p.Nothing? && want == NextCell {
        inflight := inflight[g := f.(stage := Producing(DummyCell))];
      } else {
        DropInFlight(View(), g);
        inflight := inflight - {g};
        Degrade(now);
      }
    }
  }
}
