/**
 What the calls and the failures of the scheduler do, stated of the state before and after: who is accepted,
 cancelled, completed or stopped, how every failure is recovered from, and when slots are sent and cycles open.
 */
module CoverCalls {
  import opened Wrappers
  import opened CoverSlots
  import opened CoverScheduler
  import opened CoverJobs

  // ----- calls

  /** A job is accepted exactly with an id that is not registered and as many cells as a lane has slots for. */
  lemma EnqueueExact(c: Config, s: State, job: Job)
    ensures Enqueue(c, s, job).Some? <==>
              job.id != "" && job.id !in s.jobs && 1 <= job.declared <= c.schedule.SlotsPerLane()
    ensures Enqueue(c, s, job).Some? ==>
              var t, j := Enqueue(c, s, job).value, |s.runtimes|;
              && |t.runtimes| == j + 1 && t.runtimes[..j] == s.runtimes && t.runtimes[j].job == job
              && !t.runtimes[j].settled && !t.runtimes[j].everAdmitted && t.runtimes[j].sentCells == 0
              && t.queued == s.queued + {j} && t.jobs == s.jobs[job.id := j]
              && t == s.(runtimes := t.runtimes, queued := t.queued, jobs := t.jobs)
  {}

  /** Only job `j` changed. */
  ghost predicate OnlyJob(s: State, t: State, j: nat) {
    |t.runtimes| == |s.runtimes| && forall i :: 0 <= i < |s.runtimes| && i != j ==> t.runtimes[i] == s.runtimes[i]
  }

  /**
   A cancel finds a registered job or nothing. A job that was never admitted is settled at once; an admitted one
   is refused if it cannot be cancelled, and otherwise marked, so that its next slot sends the cancel cell.
   */
  lemma CancelExact(s: State, id: string)
    requires Inv(s)
    ensures var (t, r) := Cancel(s, id);
            && (id !in s.jobs ==> r == NotFound && t == s)
            && (id in s.jobs ==>
                  var j := s.jobs[id];
                  && OnlyJob(s, t, j) && j < |s.runtimes|
                  && (r == BeforeAdmission <==> !s.runtimes[j].everAdmitted)
                  && (r == BeforeAdmission ==>
                        && t.runtimes[j].settled && t.runtimes[j].outcomes == [CancelledBeforeAdmission]
                        && j !in t.queued && id !in t.jobs)
                  && (r == Refused <==> s.runtimes[j].everAdmitted && !s.runtimes[j].job.cancellable)
                  && (r == Refused ==> t == s)
                  && (r == Pending <==> s.runtimes[j].everAdmitted && s.runtimes[j].job.cancellable)
                  && (r == Pending ==> t.runtimes[j].cancelRequested && !t.runtimes[j].settled))
  {
    if id in s.jobs { assert Unsettled(s.runtimes, s.jobs[id]) && RuntimeOk(s.runtimes[s.jobs[id]]); }
  }

  /** Completing settles exactly a registered job. */
  lemma CompleteExact(s: State, id: string)
    requires Inv(s)
    ensures var (t, done) := Complete(s, id);
            && (done <==> id in s.jobs) && (!done ==> t == s)
            && (done ==>
                  var j := s.jobs[id];
                  && OnlyJob(s, t, j) && j < |s.runtimes| && t.runtimes[j].settled
                  && t.runtimes[j].outcomes == [Completed] && j !in t.queued && id !in t.jobs)
  {
    if id in s.jobs { assert Unsettled(s.runtimes, s.jobs[id]) && RuntimeOk(s.runtimes[s.jobs[id]]); }
  }

  lemma AllRegistered(s: State)
    requires Inv(s)
    ensures forall j :: 0 <= j < |s.runtimes| ==> (s.runtimes[j].settled <==> j !in s.jobs.Values)
    ensures forall j :: 0 <= j < |s.runtimes| && !s.runtimes[j].settled ==> s.runtimes[j].outcomes == []
    ensures forall j :: j in s.queued ==> j in s.jobs.Values
  {
    forall j | 0 <= j < |s.runtimes| && !s.runtimes[j].settled
      ensures j in s.jobs.Values && s.runtimes[j].outcomes == []
    {
      assert Unsettled(s.runtimes, j) && s.jobs[s.runtimes[j].job.id] == j && RuntimeOk(s.runtimes[j]);
    }
    forall j | j in s.queued ensures j in s.jobs.Values {
      assert Unsettled(s.runtimes, j) && s.jobs[s.runtimes[j].job.id] == j;
    }
  }

  /** Stopping fails every unsettled job, and leaves none queued, registered or on a lane. */
  lemma StopExact(s: State, now: int)
    requires Inv(s) && !(s.status == Stopped && s.cycle.None?)
    ensures var t := Stop(s, now);
            && t.status == Stopped && !t.running && t.queued == {} && t.jobs == map[] && OnLanes(t) == {}
            && |t.runtimes| == |s.runtimes|
            && forall j :: 0 <= j < |s.runtimes| ==>
                 if s.runtimes[j].settled then t.runtimes[j] == s.runtimes[j]
                 else t.runtimes[j] == s.runtimes[j].(settled := true, outcomes := [Failed])
  {
    AllRegistered(s);
    var t := Settle(Disarm(s).(running := false, status := Stopped), s.jobs.Values, Failed);
    assert t.queued == {} && t.jobs == map[];
    assert s.cycle.None? ==> Stop(s, now) == t;
    assert Stop(s, now).runtimes == t.runtimes;
  }

  // ----- failures

  /** No job is on a lane, and every unsettled one is queued. */
  ghost predicate AllQueued(s: State) {
    OnLanes(s) == {} && forall j: nat :: Unsettled(s.runtimes, j) ==> j in s.queued
  }

  /** The timer for the next boundary after `now`, if the scheduler runs. */
  ghost function AwaitsBoundary(c: Config, running: bool, now: int): Option<Timer> {
    if running then Some(Timer(NextBoundary(c.schedule, now, false), OpenBoundary)) else None
  }

  /** What a failure leaves: jobs back in the queue, and a timer for the end of the cycle or for the next one. */
  ghost predicate Recovers(c: Config, s: State, t: State, now: int) {
    && t.status == Degraded && t.running == s.running && AllQueued(t)
    && (if s.cycle.Some? && now <= s.cycle.value.end
        then t.timer == Some(Timer(s.cycle.value.end, CycleBoundary))
        else t.cycle.None? && t.timer == AwaitsBoundary(c, s.running, now))
  }

  lemma DegradeRecovers(c: Config, s: State, now: int)
    requires Inv(s) && s.status != Stopped && s.status != Suspended
    ensures Recovers(c, s, Degrade(c, s, now), now)
  {
    DegradeKeeps(c, s, now);
  }

  /** A producer that throws, or has no cell to cancel or to fill with. */
  lemma ProducerFails(c: Config, s: State, g: nat, p: Production, now: int)
    requires Inv(s) && s.status != Stopped && s.status != Suspended
    requires g in s.inflight && s.inflight[g].stage.Producing?
    requires p.Threw? || (p.Nothing? && s.inflight[g].stage.want != NextCell)
    ensures Recovers(c, s, Produce(c, s, g, p, now), now) && g !in Produce(c, s, g, p, now).inflight
  {
    var t := s.(inflight := s.inflight - {g});
    SameKeeps(s, t);
    assert Inv(t);
    DegradeRecovers(c, t, now);
  }

  /** A job without a next cell lets its slot be filled. */
  lemma NothingIsFilled(c: Config, s: State, g: nat, now: int)
    requires g in s.inflight && s.inflight[g].stage == Producing(NextCell)
    ensures Produce(c, s, g, Nothing, now) ==
            s.(inflight := s.inflight[g := s.inflight[g].(stage := Producing(DummyCell))])
  {}

  /** A slot that was answered too late, or that the lane did not take. */
  lemma SendFails(c: Config, s: State, now: int, transport: Transport)
    requires Inv(s) && s.generation in s.inflight && s.inflight[s.generation].stage.Ready?
    requires now > s.inflight[s.generation].deadline + c.drift || transport != Accepted
    ensures Recovers(c, s, Continue(c, s, s.generation, now, transport), now)
  {
    var g, f := s.generation, s.inflight[s.generation];
    var t := s.(inflight := s.inflight - {g});
    var u := t.(sends := t.sends + [f.deadline]);
    SameKeeps(s, t);
    SameKeeps(s, u);
    assert Inv(t) && Inv(u);
    CacheUnsentKeeps(t, f);
    CacheUnsentKeeps(u, f);
    DegradeRecovers(c, CacheUnsent(t, f), now);
    DegradeRecovers(c, CacheUnsent(u, f), now);
  }

  /** A slot timer that fires too late, or for a lane that is not open. */
  lemma SlotFails(c: Config, s: State, now: int, opens: set<nat>, closeOk: bool)
    requires Inv(s) && Orderable(s) && s.timer.Some? && s.timer.value.kind == SlotDeadline
    requires s.timer.value.deadline <= now
    requires now > s.timer.value.deadline + c.drift ||
             SlotAt(c.schedule, s.cycle.value.start, s.cycle.value.nextSlot).lane !in s.cycle.value.lanes
    ensures Recovers(c, s, Tick(c, s, now, opens, closeOk), now)
  {
    var t := s.(timer := None);
    SameKeeps(s, t);
    assert Inv(t);
    DegradeRecovers(c, t, now);
  }

  /** A boundary timer that fires too late suspends the scheduler. */
  lemma LateBoundary(c: Config, s: State, now: int, opens: set<nat>, closeOk: bool)
    requires Inv(s) && Orderable(s) && s.timer.Some? && s.timer.value.kind != SlotDeadline
    requires now > s.timer.value.deadline + c.drift
    ensures var t := Tick(c, s, now, opens, closeOk);
            && t.status == (if s.status == Stopped then Stopped else Suspended)
            && t.cycle.None? && t.timer.None? && AllQueued(t) && t.runtimes == s.runtimes
  {
    TickKeeps(c, s, now, opens, closeOk);
  }

  // ----- the end of a cycle

  /** Jobs that used up their lane fail; one that is still to be cancelled is queued again. */
  lemma EndOfLane(s: State, l: nat)
    requires Inv(s) && s.cycle.Some? && l in s.cycle.value.carried && Unsettled(s.runtimes, s.cycle.value.carried[l])
    ensures var t, j := Finalize(s), s.cycle.value.carried[l];
            && OnLanes(t) == {} && |t.runtimes| == |s.runtimes|
            && (s.runtimes[j].cancelRequested ==> t.runtimes[j] == s.runtimes[j] && j in t.queued)
            && (!s.runtimes[j].cancelRequested ==>
                  t.runtimes[j] == s.runtimes[j].(settled := true, outcomes := [Failed]) && j !in t.queued)
  {
    var j := s.cycle.value.carried[l];
    assert j in s.cycle.value.carried.Values && RuntimeOk(s.runtimes[j]);
  }

  /** A cycle whose lanes did not all close is over; the scheduler waits for the next boundary. */
  lemma CloseFails(c: Config, s: State, now: int, opens: set<nat>)
    requires Inv(s) && Orderable(s) && Idle(s) && s.cycle.Some?
    ensures var t := EndCycle(c, s, s.cycle.value.end, now, false, opens);
            && t.cycle.None? && t.cyclesOpened == s.cyclesOpened && AllQueued(t)
            && t.status == (if s.status == Stopped then Stopped else Degraded)
            && t.timer == AwaitsBoundary(c, s.running, now)
  {
    FinalizeKeeps(s);
    CloseKeeps(Finalize(s));
  }

  // ----- when something is sent or opened

  /** Nothing is sent, no slot begins and no cycle opens. */
  ghost predicate Still(s: State, t: State) {
    t.sends == s.sends && t.cyclesOpened == s.cyclesOpened && t.inflight.Keys <= s.inflight.Keys
  }

  lemma JobCallStill(c: Config, s: State, job: Job, id: string)
    ensures Enqueue(c, s, job).Some? ==> Still(s, Enqueue(c, s, job).value)
    ensures Still(s, Cancel(s, id).0) && Still(s, Complete(s, id).0)
  {}

  lemma StopStill(s: State, now: int)
    ensures Still(s, Stop(s, now)) && Still(s, Suspend(s, now))
  {}

  lemma CallStill(c: Config, s: State, now: int, ev: Event)
    requires Orderable(s) && !ev.EvTick? && !ev.EvProduce? && !ev.EvContinue?
    ensures Still(s, Step(c, s, now, ev))
  {
    match ev
    case EvEnqueue(job) => JobCallStill(c, s, job, "");
    case EvCancel(id) => JobCallStill(c, s, Job("", Real, 0, 0, false), id);
    case EvComplete(id) => JobCallStill(c, s, Job("", Real, 0, 0, false), id);
    case EvSuspend => StopStill(s, now);
    case EvStop => StopStill(s, now);
    case _ =>
  }

  lemma DegradeStill(c: Config, s: State, now: int)
    ensures Still(s, Degrade(c, s, now))
  {}

  lemma ProduceStill(c: Config, s: State, g: nat, p: Production, now: int)
    requires g in s.inflight && s.inflight[g].stage.Producing?
    ensures Still(s, Produce(c, s, g, p, now))
  {
    DegradeStill(c, s.(inflight := s.inflight - {g}), now);
  }

  lemma CacheStill(s: State, f: InFlight)
    requires f.stage.Ready?
    ensures Still(s, CacheUnsent(s, f))
  {}

  lemma SettledStill(s: State, f: InFlight)
    requires f.stage.Ready?
    ensures Still(s, AcceptSent(s, f))
  {}

  lemma AcceptStill(c: Config, s: State, f: InFlight)
    requires f.stage.Ready?
    ensures Still(s, NextSlot(c, AcceptSent(RecordAccepted(s, f), f), f))
  {
    SettledStill(RecordAccepted(s, f), f);
    assert Still(s, RecordAccepted(s, f));
  }

  /** What a request that goes on sends: its slot, if it is current and not late. */
  lemma ContinueSends(c: Config, s: State, g: nat, now: int, transport: Transport)
    requires g in s.inflight && s.inflight[g].stage.Ready?
    ensures var f, t := s.inflight[g], Continue(c, s, g, now, transport);
            && t.sends == (if g == s.generation && now <= f.deadline + c.drift then s.sends + [f.deadline] else s.sends)
            && t.cyclesOpened == s.cyclesOpened && t.inflight.Keys <= s.inflight.Keys
  {
    var f, t := s.inflight[g], s.(inflight := s.inflight - {g});
    var u := t.(sends := t.sends + [f.deadline]);
    CacheStill(t, f);
    CacheStill(u, f);
    DegradeStill(c, CacheUnsent(t, f), now);
    DegradeStill(c, CacheUnsent(u, f), now);
    AcceptStill(c, u, f);
  }

  lemma OpenStill(c: Config, s: State, boundary: int, opens: set<nat>)
    requires Orderable(s)
    ensures var t := OpenCycle(c, s, boundary, opens);
            && t.sends == s.sends && t.inflight == s.inflight
            && var opens := s.running && s.status != Stopped && s.status != Suspended;
               t.cyclesOpened == if opens then s.cyclesOpened + 1 else s.cyclesOpened
  {}

  lemma EndStill(c: Config, s: State, boundary: int, now: int, closeOk: bool, opens: set<nat>)
    requires Inv(s) && Orderable(s)
    ensures var t := EndCycle(c, s, boundary, now, closeOk, opens);
            && t.sends == s.sends && t.inflight == s.inflight
            && (t.cyclesOpened != s.cyclesOpened ==> s.running && s.status != Stopped && s.status != Suspended)
  {
    if s.cycle.Some? && s.cycle.value.end == boundary && closeOk {
      FinalizeKeeps(s);
      assert Orderable(Close(Finalize(s)));
      OpenStill(c, Close(Finalize(s)), boundary, opens);
    }
  }

  lemma BeginStill(c: Config, s: State, now: int)
    ensures var t := BeginSlot(c, s, now);
            && t.sends == s.sends && t.cyclesOpened == s.cyclesOpened
            && (t.inflight.Keys <= s.inflight.Keys || s.status == Active)
  {
    DegradeStill(c, s, now);
  }

  /** What a timer may do, and when. */
  lemma TickDoes(c: Config, s: State, now: int, opens: set<nat>, closeOk: bool)
    requires Inv(s) && Orderable(s)
    ensures var t := Tick(c, s, now, opens, closeOk);
            && t.sends == s.sends
            && (t.cyclesOpened != s.cyclesOpened ==>
                  && s.running && s.status != Stopped && s.status != Suspended
                  && s.timer.Some? && s.timer.value.kind != SlotDeadline
                  && s.timer.value.deadline <= now <= s.timer.value.deadline + c.drift)
            && (!(t.inflight.Keys <= s.inflight.Keys) ==>
                  && s.status == Active && s.timer.Some? && s.timer.value.kind == SlotDeadline
                  && s.timer.value.deadline <= now <= s.timer.value.deadline + c.drift)
  {
    if s.timer.Some? && s.timer.value.deadline <= now {
      var t, d := s.(timer := None), s.timer.value.deadline;
      SameKeeps(s, t);
      assert Inv(t);
      if now > d + c.drift {
        DegradeStill(c, t, now);
        assert Still(t, LateTimer(c, t, s.timer.value.kind, now));
      } else {
        OpenStill(c, t, d, opens);
        EndStill(c, t, d, now, closeOk, opens);
        BeginStill(c, t, now);
      }
    }
  }

  /** A slot is sent only while the scheduler is active, by the request it waits for, and not late. */
  lemma SendsOnTime(c: Config, s: State, now: int, ev: Event)
    requires Inv(s) && Orderable(s) && Step(c, s, now, ev).sends != s.sends
    ensures s.status == Active && ev.EvContinue? && ev.g == s.generation && s.generation in s.inflight
    ensures var f := s.inflight[s.generation];
            && now <= f.deadline + c.drift && Step(c, s, now, ev).sends == s.sends + [f.deadline]
            && s.cycle.Some? && f.serial == s.cycle.value.serial
  {
    match ev
    case EvTick(opens, closeOk) => TickDoes(c, s, now, opens, closeOk);
    case EvProduce(g, p) => if g in s.inflight && s.inflight[g].stage.Producing? { ProduceStill(c, s, g, p, now); }
    case EvContinue(g, t) => if g in s.inflight && s.inflight[g].stage.Ready? { ContinueSends(c, s, g, now, t); }
    case _ => CallStill(c, s, now, ev);
  }

  /** A slot begins only when its timer is due, and not late. */
  lemma SlotsOnTime(c: Config, s: State, now: int, ev: Event)
    requires Inv(s) && Orderable(s) && !(Step(c, s, now, ev).inflight.Keys <= s.inflight.Keys)
    ensures s.status == Active && ev.EvTick? && s.timer.Some? && s.timer.value.kind == SlotDeadline
    ensures s.timer.value.deadline <= now <= s.timer.value.deadline + c.drift
  {
    match ev
    case EvTick(opens, closeOk) => TickDoes(c, s, now, opens, closeOk);
    case EvProduce(g, p) => if g in s.inflight && s.inflight[g].stage.Producing? { ProduceStill(c, s, g, p, now); }
    case EvContinue(g, t) => if g in s.inflight && s.inflight[g].stage.Ready? { ContinueSends(c, s, g, now, t); }
    case _ => CallStill(c, s, now, ev);
  }

  /** A cycle opens only at a boundary that is due, while the scheduler runs and is neither stopped nor suspended. */
  lemma OpensOnlyRunning(c: Config, s: State, now: int, ev: Event)
    requires Inv(s) && Orderable(s) && Step(c, s, now, ev).cyclesOpened != s.cyclesOpened
    ensures s.running && s.status != Stopped && s.status != Suspended && ev.EvTick? && s.timer.Some?
    ensures s.timer.value.deadline <= now <= s.timer.value.deadline + c.drift && s.timer.value.kind != SlotDeadline
  {
    match ev
    case EvTick(opens, closeOk) => TickDoes(c, s, now, opens, closeOk);
    case EvProduce(g, p) => if g in s.inflight && s.inflight[g].stage.Producing? { ProduceStill(c, s, g, p, now); }
    case EvContinue(g, t) => if g in s.inflight && s.inflight[g].stage.Ready? { ContinueSends(c, s, g, now, t); }
    case _ => CallStill(c, s, now, ev);
  }

  // ----- cancel cells

  /** A cancel cell that could not be sent is kept for its job, and is what the job's next slot sends. */
  lemma CancelCellKept(s: State, f: InFlight)
    requires Inv(s) && f.stage.Ready? && f.stage.source == CancelCell && f.job.Some?
    requires Unsettled(s.runtimes, f.job.value) && s.runtimes[f.job.value].cancelRequested
    ensures var t := CacheUnsent(s, f);
            && f.job.value < |t.runtimes| && t.runtimes[f.job.value].pendingCancelCell == Some(f.stage.cell)
            && FirstStage(t.runtimes[f.job.value]) == Ready(CancelCell, f.stage.cell)
  {
    assert RuntimeOk(s.runtimes[f.job.value]);
  }
}
