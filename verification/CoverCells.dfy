/**
 Cell conservation: what lanes accept of a job is an in-order prefix, without repetition, of what the
 job produced, however often its slots were interrupted.
 */
module CoverCells {
  import opened Wrappers
  import opened CoverSlots
  import opened CoverScheduler
  import opened CoverJobs

  // ----- steps that leave cells alone

  /** The runtime may be settled, but its cells stay as they are. */
  ghost predicate QuietRuntime(r: Runtime, q: Runtime) {
    && q.job == r.job && q.produced == r.produced && q.accepted == r.accepted
    && (!q.settled ==> !r.settled && q.pendingCell == r.pendingCell && q.sentCells == r.sentCells)
    && (r.settled ==> q.outcomes == r.outcomes)
  }

  ghost predicate QuietRuntimes(rs: seq<Runtime>, qs: seq<Runtime>) {
    |qs| == |rs| && forall j :: 0 <= j < |rs| ==> QuietRuntime(rs[j], qs[j])
  }

  /** Lanes keep their jobs, or give all of them up; another cycle is a new one. */
  ghost predicate QuietLanes(s: State, t: State) {
    && s.cyclesOpened <= t.cyclesOpened
    && (t.cycle.Some? ==>
          || t.cycle.value.serial >= s.cyclesOpened
          || (s.cycle.Some? && t.cycle.value.serial == s.cycle.value.serial
              && (t.cycle.value.carried == s.cycle.value.carried || t.cycle.value.carried == map[])))
  }

  /** A slot that is being served keeps its lane until its generation is over. */
  ghost predicate QuietSlot(s: State, t: State) {
    && t.inflight == s.inflight && t.generation >= s.generation
    && (t.generation == s.generation && s.generation in s.inflight ==> t.cycle == s.cycle)
  }

  ghost predicate Quiet(s: State, t: State) {
    QuietRuntimes(s.runtimes, t.runtimes) && QuietLanes(s, t) && QuietSlot(s, t)
  }

  lemma QuietSettle(s: State, js: set<nat>, o: Outcome)
    ensures Quiet(s, Settle(s, js, o)) && Settle(s, js, o).generation == s.generation
    ensures Settle(s, js, o).cycle == s.cycle
  {}

  lemma QuietTrans(s: State, t: State, u: State)
    requires Quiet(s, t) && Quiet(t, u)
    ensures Quiet(s, u)
  {}

  lemma QuietCancel(s: State, id: string)
    requires Inv(s)
    ensures Quiet(s, Cancel(s, id).0)
  {
    if id in s.jobs { QuietSettle(s, {s.jobs[id]}, CancelledBeforeAdmission); }
  }

  lemma QuietComplete(s: State, id: string)
    requires Inv(s)
    ensures Quiet(s, Complete(s, id).0)
  {}

  lemma QuietStart(c: Config, s: State, now: int)
    ensures Quiet(s, Start(c, s, now))
  {}

  /** Giving up the cycle of a generation that is over. */
  lemma QuietInterrupt(s: State, status: Status)
    ensures var t := Interrupt(Disarm(s).(status := status)); Quiet(s, t) && t.generation > s.generation
  {}

  lemma QuietAwait(s: State, t: State, now: int)
    requires Quiet(s, t) && t.generation > s.generation && t.cycle.Some?
    ensures Quiet(s, AwaitEnd(t, now))
  {}

  lemma QuietArm(s: State, t: State, deadline: int, kind: TimerKind)
    requires Quiet(s, t) && t.generation > s.generation
    ensures Quiet(s, Close(t)) && Quiet(s, Arm(t, deadline, kind)) && Quiet(s, Arm(Close(t), deadline, kind))
  {}

  lemma QuietSuspend(s: State, now: int)
    ensures Quiet(s, Suspend(s, now))
  {
    if s.status != Stopped && s.status != Suspended {
      QuietInterrupt(s, Suspended);
      if s.cycle.Some? { QuietAwait(s, Interrupt(Disarm(s).(status := Suspended)), now); }
    }
  }

  lemma QuietResume(c: Config, s: State, now: int)
    ensures Quiet(s, Resume(c, s, now))
  {
    var t := Disarm(s).(running := true, status := Starting);
    if s.cycle.Some? { QuietArm(s, t, s.cycle.value.end, CycleBoundary); }
    QuietArm(s, t, NextBoundary(c.schedule, now, false), OpenBoundary);
  }

  lemma QuietStop(s: State, now: int)
    ensures Quiet(s, Stop(s, now))
  {
    QuietSettle(Disarm(s).(running := false, status := Stopped), s.jobs.Values, Failed);
  }

  lemma QuietDegrade(c: Config, s: State, now: int)
    ensures Quiet(s, Degrade(c, s, now))
  {
    if s.status != Stopped && s.status != Suspended {
      var t := Interrupt(Disarm(s).(status := Degraded));
      QuietInterrupt(s, Degraded);
      if s.cycle.Some? { QuietAwait(s, t, now); }
      QuietArm(s, t, NextBoundary(c.schedule, now, false), OpenBoundary);
    }
  }

  lemma QuietOpened(c: Config, s: State, boundary: int, opens: set<nat>)
    requires Orderable(s)
    ensures var t := Opened(c, s, boundary, opens);
            && QuietRuntimes(s.runtimes, t.runtimes) && QuietLanes(s, t)
            && t.inflight == s.inflight && t.generation == s.generation
  {}

  lemma QuietOpen(c: Config, s: State, boundary: int, opens: set<nat>)
    requires Orderable(s)
    ensures Quiet(s, OpenCycle(c, s, boundary, opens))
  {
    QuietOpened(c, s, boundary, opens);
  }

  lemma QuietLateTimer(c: Config, s: State, kind: TimerKind, now: int)
    requires Idle(s)
    ensures Quiet(s, LateTimer(c, s, kind, now))
  {
    QuietDegrade(c, s, now);
  }

  lemma QuietFinish(s: State)
    requires Idle(s)
    ensures Quiet(s, Close(Finalize(s)))
  {
    if s.cycle.Some? {
      QuietSettle(s, SpentJobs(s.runtimes, s.cycle.value.carried.Values), Failed);
    }
  }

  lemma QuietEndCycle(c: Config, s: State, boundary: int, now: int, closeOk: bool, opens: set<nat>)
    requires Inv(s) && Idle(s)
    ensures Orderable(s) && Quiet(s, EndCycle(c, s, boundary, now, closeOk, opens))
  {
    InvOrderable(s);
    if s.cycle.Some? && s.cycle.value.end == boundary {
      QuietFinish(s);
      FinalizeKeeps(s);
      CloseKeepsInv(Finalize(s));
      var t := Close(Finalize(s));
      if closeOk {
        QuietOpen(c, t, boundary, opens);
        QuietTrans(s, t, OpenCycle(c, t, boundary, opens));
      }
    }
  }

  // ----- the books of cells

  /** The cells of one job: accepted ones are a prefix of the produced ones, within the declared number. */
  ghost predicate CellsOk(r: Runtime) {
    && |r.accepted| <= r.job.declared && r.accepted <= r.produced
    && (!r.settled ==> |r.accepted| == r.sentCells < r.job.declared)
  }

  /** Nothing on its way: what was produced and not accepted is the pending cell. */
  ghost predicate RestOk(r: Runtime) {
    !r.settled ==> r.produced == r.accepted + (if r.pendingCell.Some? then [r.pendingCell.value] else [])
  }

  /** A cell on its way is the one that follows the accepted ones. */
  ghost predicate FlightCells(r: Runtime, stage: Stage) {
    IsNext(stage) ==>
      && |r.accepted| < r.job.declared
      && (stage.Producing? ==> r.produced == r.accepted && (!r.settled ==> r.pendingCell.None?))
      && (stage.Ready? ==>
            && r.accepted + [stage.cell] <= r.produced
            && (!r.settled ==>
                  && r.produced == r.accepted + [stage.cell]
                  && (r.pendingCell.None? || r.pendingCell.value == stage.cell)))
  }

  /** Every request names its job, and no two `nextCell` requests name the same. */
  ghost predicate FlightsOk(n: nat, inflight: map<nat, InFlight>) {
    && (forall g :: g in inflight && inflight[g].job.Some? ==> inflight[g].job.value < n)
    && (forall g :: g in inflight && inflight[g].job.None? ==>
          inflight[g].stage == Producing(DummyCell)
              || (inflight[g].stage.Ready? && inflight[g].stage.source == DummyCell))
    && (forall g, h ::
          (g in inflight && h in inflight && g != h && IsNext(inflight[g].stage) && IsNext(inflight[h].stage)) ==>
          inflight[g].job != inflight[h].job)
  }

  ghost predicate CellBooks(rs: seq<Runtime>, inflight: map<nat, InFlight>) {
    && FlightsOk(|rs|, inflight)
    && (forall j :: 0 <= j < |rs| ==> CellsOk(rs[j]))
    && (forall j: nat :: j < |rs| && !NextOnWay(inflight, j) ==> RestOk(rs[j]))
    && (forall g :: g in inflight && inflight[g].job.Some? ==>
        FlightCells(rs[inflight[g].job.value], inflight[g].stage))
  }

  /** The lane of a request still carries the request's job, or none. */
  ghost predicate LaneBooks(s: State) {
    && (forall g :: g in s.inflight ==> s.inflight[g].serial < s.cyclesOpened)
    && (forall g :: g in s.inflight && LaneJob(s, s.inflight[g]).Some? ==>
        LaneJob(s, s.inflight[g]) == s.inflight[g].job)
    && (s.generation in s.inflight ==> LaneJob(s, s.inflight[s.generation]) == s.inflight[s.generation].job)
  }

  /** An unsettled job with the id of a `nextCell` request's job is that job itself. */
  ghost predicate OwnId(rs: seq<Runtime>, f: InFlight) {
    IsNext(f.stage) && f.job.Some? && f.job.value < |rs| ==>
      forall k: nat :: Unsettled(rs, k) && rs[k].job.id == rs[f.job.value].job.id ==> k == f.job.value
  }

  ghost predicate OwnIds(rs: seq<Runtime>, inflight: map<nat, InFlight>) {
    forall g :: g in inflight ==> OwnId(rs, inflight[g])
  }

  ghost predicate CellInv(s: State) {
    CellBooks(s.runtimes, s.inflight) && LaneBooks(s) && OwnIds(s.runtimes, s.inflight)
  }

  /** Jobs stay the same and none becomes unsettled: ids stay their own. */
  ghost predicate SettlesOnly(rs: seq<Runtime>, qs: seq<Runtime>) {
    |qs| == |rs| && forall j :: 0 <= j < |rs| ==> qs[j].job == rs[j].job && (!qs[j].settled ==> !rs[j].settled)
  }

  lemma OwnIdStays(rs: seq<Runtime>, qs: seq<Runtime>, f: InFlight)
    requires OwnId(rs, f) && SettlesOnly(rs, qs)
    ensures OwnId(qs, f)
  {
    forall k: nat | Unsettled(qs, k) ensures Unsettled(rs, k) {}
  }

  lemma OwnIdsStay(rs: seq<Runtime>, qs: seq<Runtime>, inflight: map<nat, InFlight>)
    requires OwnIds(rs, inflight) && SettlesOnly(rs, qs)
    ensures OwnIds(qs, inflight)
  {
    forall g | g in inflight ensures OwnId(qs, inflight[g]) { OwnIdStays(rs, qs, inflight[g]); }
  }

  lemma QuietBooks(rs: seq<Runtime>, qs: seq<Runtime>, inflight: map<nat, InFlight>)
    requires CellBooks(rs, inflight) && QuietRuntimes(rs, qs)
    ensures CellBooks(qs, inflight)
  {
    forall j | 0 <= j < |qs| ensures CellsOk(qs[j]) { assert CellsOk(rs[j]) && QuietRuntime(rs[j], qs[j]); }
    forall j: nat | j < |qs| && !NextOnWay(inflight, j) ensures RestOk(qs[j]) {
      assert RestOk(rs[j]) && QuietRuntime(rs[j], qs[j]);
    }
    forall g | g in inflight && inflight[g].job.Some?
        ensures FlightCells(qs[inflight[g].job.value], inflight[g].stage) {
      var j := inflight[g].job.value;
      assert FlightCells(rs[j], inflight[g].stage) && QuietRuntime(rs[j], qs[j]);
    }
  }

  lemma QuietLaneBooks(s: State, t: State)
    requires LaneBooks(s) && InFlightOk(s) && QuietLanes(s, t) && QuietSlot(s, t)
    ensures LaneBooks(t)
  {
    forall g | g in t.inflight && LaneJob(t, t.inflight[g]).Some?
        ensures LaneJob(t, t.inflight[g]) == t.inflight[g].job {
      assert s.inflight[g].serial < s.cyclesOpened;
      assert LaneJob(s, s.inflight[g]) == LaneJob(t, t.inflight[g]);
    }
  }

  lemma QuietKeeps(s: State, t: State)
    requires CellInv(s) && InFlightOk(s) && Quiet(s, t)
    ensures CellInv(t)
  {
    QuietBooks(s.runtimes, t.runtimes, s.inflight);
    QuietLaneBooks(s, t);
    OwnIdsStay(s.runtimes, t.runtimes, s.inflight);
  }

  // ----- requests that begin, move on and end

  lemma NextStays(inflight: map<nat, InFlight>, after: map<nat, InFlight>, j: nat)
    requires forall h :: h in inflight && inflight[h].job == Some(j) ==> h in after && after[h] == inflight[h]
    ensures NextOnWay(inflight, j) ==> NextOnWay(after, j)
  {}

  /** A `nextCell` request of job `j` ends, and the runtime becomes `q`. */
  lemma FlightEnds(rs: seq<Runtime>, inflight: map<nat, InFlight>, g: nat, j: nat, q: Runtime)
    requires CellBooks(rs, inflight) && g in inflight && inflight[g].job == Some(j) && IsNext(inflight[g].stage)
    requires CellsOk(q) && RestOk(q)
    ensures CellBooks(rs[j := q], inflight - {g})
  {
    forall i: nat | i < |rs| && i != j && !NextOnWay(inflight - {g}, i) ensures RestOk(rs[i]) {
      NextStays(inflight, inflight - {g}, i);
    }
  }

  /** A request for another cell ends; the job's cells stay as they are. */
  lemma OtherFlightEnds(rs: seq<Runtime>, inflight: map<nat, InFlight>, g: nat)
    requires CellBooks(rs, inflight) && g in inflight && !IsNext(inflight[g].stage)
    ensures CellBooks(rs, inflight - {g})
  {
    forall i: nat | i < |rs| && !NextOnWay(inflight - {g}, i) ensures RestOk(rs[i]) {
      NextStaysWithout(inflight, g, i);
    }
  }

  lemma NextStaysWithout(inflight: map<nat, InFlight>, g: nat, i: nat)
    requires g in inflight && !IsNext(inflight[g].stage)
    ensures NextOnWay(inflight, i) ==> NextOnWay(inflight - {g}, i)
  {
    if NextOnWay(inflight, i) {
      var h :| h in inflight && inflight[h].job == Some(i) && IsNext(inflight[h].stage);
      assert h in inflight - {g};
    }
  }

  /** What the other requests of job `j` demand of its runtime. */
  ghost predicate OthersFit(inflight: map<nat, InFlight>, g: nat, j: nat, stage: Stage, q: Runtime) {
    forall h :: h in inflight && h != g && inflight[h].job == Some(j) ==>
      FlightCells(q, inflight[h].stage) && !(IsNext(stage) && IsNext(inflight[h].stage))
  }

  /** A request of job `j` at generation `g` begins, or moves on to another stage. */
  lemma FlightMoves(rs: seq<Runtime>, inflight: map<nat, InFlight>, g: nat, f: InFlight, j: nat, q: Runtime)
    requires CellBooks(rs, inflight) && f.job == Some(j) && j < |rs| && CellsOk(q) && FlightCells(q, f.stage)
    requires g in inflight ==> inflight[g].job == Some(j)
    requires OthersFit(inflight, g, j, f.stage, q)
    requires !NextOnWay(inflight[g := f], j) ==> RestOk(q)
    ensures CellBooks(rs[j := q], inflight[g := f])
  {
    var after := inflight[g := f];
    forall i: nat | i < |rs| && !NextOnWay(after, i) ensures RestOk(rs[j := q][i]) {
      if i != j { NextStays(inflight, after, i); }
    }
  }

  lemma IdleFlightMoves(rs: seq<Runtime>, inflight: map<nat, InFlight>, g: nat, f: InFlight)
    requires CellBooks(rs, inflight) && f.job.None? && (g in inflight ==> inflight[g].job.None?)
    requires f.stage == Producing(DummyCell) || (f.stage.Ready? && f.stage.source == DummyCell)
    ensures CellBooks(rs, inflight[g := f])
  {
    var after := inflight[g := f];
    forall i: nat | i < |rs| && !NextOnWay(after, i) ensures RestOk(rs[i]) {
      NextStays(inflight, after, i);
    }
  }

  lemma EnqueueCells(c: Config, s: State, now: int, job: Job)
    requires CellInv(s) && Enqueue(c, s, job).Some? && Enabled(c, s, now, EvEnqueue(job))
    ensures CellInv(Enqueue(c, s, job).value)
  {
    var t := Enqueue(c, s, job).value;
    forall j: nat | j < |t.runtimes| && !NextOnWay(s.inflight, j) ensures RestOk(t.runtimes[j]) {}
    forall g | g in s.inflight ensures OwnId(t.runtimes, s.inflight[g]) {
      assert OwnId(s.runtimes, s.inflight[g]);
      forall k: nat | Unsettled(t.runtimes, k) && k < |s.runtimes| ensures Unsettled(s.runtimes, k) {}
    }
  }

  /** The request of a slot that begins fits the job's cells. */
  lemma FirstStageFits(r: Runtime)
    requires CellsOk(r) && (IsNext(FirstStage(r)) ==> RestOk(r))
    ensures FlightCells(r, FirstStage(r))
  {}

  /** A slot of job `j` may begin: it does not ask `nextCell` while that is still being asked. */
  ghost predicate MayBegin(s: State, j: nat) {
    NextOnWay(s.inflight, j) && j < |s.runtimes| ==> !IsNext(FirstStage(s.runtimes[j]))
  }

  lemma BeginSlotCells(c: Config, s: State, now: int)
    requires CellInv(s) && Inv(s) && Idle(s)
    requires s.cycle.Some? ==> var lane := SlotAt(c.schedule, s.cycle.value.start, s.cycle.value.nextSlot).lane;
               lane in s.cycle.value.carried && lane in s.cycle.value.lanes ==> MayBegin(s, s.cycle.value.carried[lane])
    ensures CellInv(BeginSlot(c, s, now))
  {
    var t := BeginSlot(c, s, now);
    if s.cycle.None? || s.status != Active {
    } else if SlotAt(c.schedule, s.cycle.value.start, s.cycle.value.nextSlot).lane !in s.cycle.value.lanes {
      QuietDegrade(c, s, now);
      QuietKeeps(s, t);
    } else {
      SlotRequestCells(c, s, now);
    }
  }

  /** A slot asks `nextCell` only of an unsettled job, which is the one registered by its id. */
  lemma BegunIsOwn(rs: seq<Runtime>, jobs: map<string, nat>, f: InFlight)
    requires Registered(rs, jobs) && (f.job.Some? && f.job.value < |rs| ==> f.stage == FirstStage(rs[f.job.value]))
    ensures OwnId(rs, f)
  {}

  lemma BegunBooks(s: State, f: InFlight)
    requires CellBooks(s.runtimes, s.inflight) && s.generation !in s.inflight
    requires if f.job.None? then f.stage == Producing(DummyCell)
             else f.job.value < |s.runtimes| && f.stage == FirstStage(s.runtimes[f.job.value])
    requires f.job.Some? ==> MayBegin(s, f.job.value)
    ensures CellBooks(s.runtimes, s.inflight[s.generation := f])
  {
    if f.job.Some? {
      var j := f.job.value;
      FirstStageFits(s.runtimes[j]);
      if NextOnWay(s.inflight, j) { NextStays(s.inflight, s.inflight[s.generation := f], j); }
      FlightMoves(s.runtimes, s.inflight, s.generation, f, j, s.runtimes[j]);
      assert s.runtimes[j := s.runtimes[j]] == s.runtimes;
    } else {
      IdleFlightMoves(s.runtimes, s.inflight, s.generation, f);
    }
  }

  lemma BegunLanes(s: State, f: InFlight)
    requires LaneBooks(s) && s.generation !in s.inflight && f.serial < s.cyclesOpened && LaneJob(s, f) == f.job
    ensures LaneBooks(s.(inflight := s.inflight[s.generation := f]))
  {
    var t := s.(inflight := s.inflight[s.generation := f]);
    assert forall h :: h in s.inflight ==> LaneJob(t, t.inflight[h]) == LaneJob(s, s.inflight[h]);
    assert LaneJob(t, f) == LaneJob(s, f);
  }

  lemma SlotRequestCells(c: Config, s: State, now: int)
    requires CellInv(s) && JobsOk(s) && s.generation !in s.inflight && s.cycle.Some? && s.status == Active
    requires s.cycle.value.serial < s.cyclesOpened
    requires var lane := SlotAt(c.schedule, s.cycle.value.start, s.cycle.value.nextSlot).lane;
             lane in s.cycle.value.lanes && (lane in s.cycle.value.carried ==> MayBegin(s, s.cycle.value.carried[lane]))
    ensures CellInv(BeginSlot(c, s, now))
  {
    var f := BeginSlot(c, s, now).inflight[s.generation];
    BegunBooks(s, f);
    BegunLanes(s, f);
    BegunIsOwn(s.runtimes, s.jobs, f);
  }

  lemma TickCells(c: Config, s: State, now: int, opens: set<nat>, closeOk: bool)
    requires CellInv(s) && Inv(s) && Drained(s) && Enabled(c, s, now, EvTick(opens, closeOk))
    ensures Orderable(s) && CellInv(Tick(c, s, now, opens, closeOk))
  {
    InvOrderable(s);
    if s.timer.Some? && s.timer.value.deadline <= now {
      var t := s.(timer := None);
      SameKeeps(s, t);
      assert CellInv(t) && Inv(t) && Idle(t);
      if now > s.timer.value.deadline + c.drift {
        QuietLateTimer(c, t, s.timer.value.kind, now);
        QuietKeeps(t, LateTimer(c, t, s.timer.value.kind, now));
      } else {
        DueTimerCells(c, s, now, opens, closeOk);
      }
    }
  }

  lemma DueTimerCells(c: Config, s: State, now: int, opens: set<nat>, closeOk: bool)
    requires s.timer.Some? && s.timer.value.deadline <= now <= s.timer.value.deadline + c.drift
    requires CellInv(s.(timer := None)) && Inv(s.(timer := None)) && Idle(s.(timer := None))
    requires Drained(s) && Enabled(c, s, now, EvTick(opens, closeOk))
    ensures Orderable(s) && CellInv(Tick(c, s, now, opens, closeOk))
  {
    var t, d := s.(timer := None), s.timer.value.deadline;
    InvOrderable(t);
    match s.timer.value.kind
    case OpenBoundary =>
      QuietOpen(c, t, d, opens);
      QuietKeeps(t, OpenCycle(c, t, d, opens));
    case CycleBoundary =>
      QuietEndCycle(c, t, d, now, closeOk, opens);
      QuietKeeps(t, EndCycle(c, t, d, now, closeOk, opens));
    case SlotDeadline =>
      if s.cycle.Some? {
        var lane := SlotAt(c.schedule, s.cycle.value.start, s.cycle.value.nextSlot).lane;
        if lane in s.cycle.value.carried && lane in s.cycle.value.lanes {
          assert !Overlaps(c, s, now, lane);
        }
      }
      BeginSlotCells(c, t, now);
  }

  lemma LaneBooksDrop(s: State, g: nat)
    requires LaneBooks(s)
    ensures LaneBooks(s.(inflight := s.inflight - {g}))
  {
    var t := s.(inflight := s.inflight - {g});
    assert forall f :: LaneJob(t, f) == LaneJob(s, f);
  }

  lemma LaneBooksMove(s: State, g: nat, stage: Stage)
    requires LaneBooks(s) && g in s.inflight
    ensures LaneBooks(s.(inflight := s.inflight[g := s.inflight[g].(stage := stage)]))
  {
    var t := s.(inflight := s.inflight[g := s.inflight[g].(stage := stage)]);
    assert forall h :: h in s.inflight ==> LaneJob(t, t.inflight[h]) == LaneJob(s, s.inflight[h]);
  }

  /** A producer that fails leaves nothing behind. */
  lemma FailedCells(s: State, g: nat)
    requires CellInv(s) && g in s.inflight && s.inflight[g].stage.Producing?
    ensures CellInv(s.(inflight := s.inflight - {g}))
  {
    LaneBooksDrop(s, g);
    var f := s.inflight[g];
    if IsNext(f.stage) {
      var j := f.job.value;
      FlightEnds(s.runtimes, s.inflight, g, j, s.runtimes[j]);
      assert s.runtimes[j := s.runtimes[j]] == s.runtimes;
    } else {
      OtherFlightEnds(s.runtimes, s.inflight, g);
    }
  }

  /** A request goes on to another stage, and its job's runtime to `q`. */
  lemma MovedCells(s: State, g: nat, stage: Stage, q: Runtime)
    requires CellInv(s) && g in s.inflight && s.inflight[g].job.Some?
    requires var r := s.runtimes[s.inflight[g].job.value]; q.job == r.job && q.settled == r.settled
    requires CellsOk(q) && FlightCells(q, stage)
    requires if IsNext(s.inflight[g].stage) then IsNext(stage) || RestOk(q)
             else q == s.runtimes[s.inflight[g].job.value] && !IsNext(stage)
    ensures CellInv(s.(runtimes := s.runtimes[s.inflight[g].job.value := q],
        inflight := s.inflight[g := s.inflight[g].(stage := stage)]))
  {
    var f := s.inflight[g];
    LaneBooksMove(s, g, stage);
    MovedBooks(s.runtimes, s.inflight, g, stage, q);
    OwnIdsStay(s.runtimes, s.runtimes[f.job.value := q], s.inflight);
    var t := s.(inflight := s.inflight[g := f.(stage := stage)]);
    LaneBooksOfRuntimes(t, s.runtimes[f.job.value := q]);
  }

  lemma MovedBooks(rs: seq<Runtime>, inflight: map<nat, InFlight>, g: nat, stage: Stage, q: Runtime)
    requires CellBooks(rs, inflight) && g in inflight && inflight[g].job.Some? && CellsOk(q) && FlightCells(q, stage)
    requires if IsNext(inflight[g].stage) then IsNext(stage) || RestOk(q)
             else q == rs[inflight[g].job.value] && !IsNext(stage)
    ensures CellBooks(rs[inflight[g].job.value := q], inflight[g := inflight[g].(stage := stage)])
  {
    var f, j := inflight[g], inflight[g].job.value;
    var after := inflight[g := f.(stage := stage)];
    if IsNext(stage) { assert after[g].job == Some(j) && IsNext(after[g].stage); }
    if !IsNext(f.stage) && NextOnWay(inflight, j) {
      var h :| h in inflight && inflight[h].job == Some(j) && IsNext(inflight[h].stage);
      assert after[h] == inflight[h];
    }
    FlightMoves(rs, inflight, g, f.(stage := stage), j, q);
  }

  lemma LaneBooksOfRuntimes(s: State, rs: seq<Runtime>)
    requires LaneBooks(s)
    ensures LaneBooks(s.(runtimes := rs))
  {
    assert forall f :: LaneJob(s.(runtimes := rs), f) == LaneJob(s, f);
  }

  lemma ProduceCells(c: Config, s: State, g: nat, p: Production, now: int)
    requires CellInv(s) && Inv(s) && g in s.inflight && s.inflight[g].stage.Producing?
    ensures CellInv(Produce(c, s, g, p, now))
  {
    var f := s.inflight[g];
    var want := f.stage.want;
    if p.Threw? || (p.Nothing? && want != NextCell) {
      var t := s.(inflight := s.inflight - {g});
      FailedCells(s, g);
      QuietDegrade(c, t, now);
      QuietKeeps(t, Degrade(c, t, now));
    } else if f.job.None? {
      LaneBooksMove(s, g, Ready(DummyCell, p.cell));
      IdleFlightMoves(s.runtimes, s.inflight, g, f.(stage := Ready(DummyCell, p.cell)));
    } else {
      ProduceJobCell(c, s, g, p, now);
    }
  }

  lemma ProduceJobCell(c: Config, s: State, g: nat, p: Production, now: int)
    requires CellInv(s) && g in s.inflight && s.inflight[g].stage.Producing? && s.inflight[g].job.Some?
    requires p.Cell? || (p.Nothing? && s.inflight[g].stage.want == NextCell)
    ensures CellInv(Produce(c, s, g, p, now))
  {
    var f := s.inflight[g];
    var j, want := f.job.value, f.stage.want;
    var r := s.runtimes[j];
    assert s.runtimes[j := r] == s.runtimes;
    if p.Nothing? {
      MovedCells(s, g, Producing(DummyCell), r);
    } else if want == NextCell {
      MovedCells(s, g, Ready(want, p.cell), r.(produced := r.produced + [p.cell]));
    } else {
      MovedCells(s, g, Ready(want, p.cell), r);
    }
  }

  // ----- cells that are sent, or kept

  /** The `nextCell` request of a settled or unsettled job finds its own job again, or none. */
  lemma CacheTargetIsOwn(s: State, f: InFlight)
    requires Registered(s.runtimes, s.jobs) && OwnId(s.runtimes, f) && f.stage.Ready? && IsNext(f.stage)
    requires f.job.Some? && f.job.value < |s.runtimes|
    requires LaneJob(s, f).Some? ==> LaneJob(s, f) == f.job
    ensures CacheUnsent(s, f) ==
        s.(runtimes := s.runtimes[f.job.value := Kept(s.runtimes[f.job.value], f.stage)])
  {
    var j := f.job.value;
    assert s.runtimes[j := s.runtimes[j]] == s.runtimes;
    if !Unsettled(s.runtimes, j) { assert s.runtimes[j].job.id !in s.jobs; }
  }

  /** Any other request may find another job, whose cells stay as they are. */
  lemma CacheOther(s: State, f: InFlight)
    requires f.stage.Ready? && !IsNext(f.stage)
    ensures CacheUnsent(s, f) == s.(runtimes := CacheUnsent(s, f).runtimes)
    ensures QuietRuntimes(s.runtimes, CacheUnsent(s, f).runtimes)
  {}

  ghost function Kept(r: Runtime, stage: Stage): Runtime
    requires stage.Ready?
  {
    if r.settled then r else WithUnsent(r, stage)
  }

  /** The runtime after the lane accepted a cell of the job. */
  ghost function Taken(r: Runtime, stage: Stage): Runtime
    requires stage.Ready?
  {
    var a := if stage.source == NextCell then r.(accepted := r.accepted + [stage.cell]) else r;
    if a.settled then a
    else
      var b := AfterSent(a, stage.source);
      if stage.source == CancelCell then SettleRuntime(b, Cancelled)
      else if stage.source == NextCell && a.sentCells + 1 == a.job.declared then SettleRuntime(b, Completed)
      else b
  }

  /** Kept or sent, the cell of a `nextCell` request leaves the job's cells in order. */
  lemma KeptFits(r: Runtime, stage: Stage)
    requires stage.Ready? && CellsOk(r) && FlightCells(r, stage) && IsNext(stage)
    ensures CellsOk(Kept(r, stage)) && RestOk(Kept(r, stage))
  {}

  lemma TakenFits(r: Runtime, stage: Stage)
    requires stage.Ready? && CellsOk(r) && FlightCells(r, stage) && IsNext(stage)
    ensures CellsOk(Taken(r, stage)) && RestOk(Taken(r, stage))
  {}

  /** Every other cell leaves them alone. */
  lemma OthersQuiet(r: Runtime, stage: Stage)
    requires stage.Ready? && !IsNext(stage)
    ensures QuietRuntime(r, Kept(r, stage)) && QuietRuntime(r, Taken(r, stage))
  {}

  lemma SettleOne(s: State, j: nat, o: Outcome)
    requires j < |s.runtimes|
    ensures Settle(s, {j}, o).runtimes == s.runtimes[j := SettleRuntime(s.runtimes[j], o)]
  {}

  lemma AcceptedRuntimes(s: State, f: InFlight)
    requires f.stage.Ready? && f.job.Some? && f.job.value < |s.runtimes| && LaneJob(s, f) == f.job
    ensures AcceptSent(RecordAccepted(s, f), f).runtimes ==
        s.runtimes[f.job.value := Taken(s.runtimes[f.job.value], f.stage)]
  {
    var j := f.job.value;
    var a := RecordAccepted(s, f);
    assert LaneJob(a, f) == f.job;
    var b := a.(runtimes := a.runtimes[j := AfterSent(a.runtimes[j], f.stage.source)]);
    SettleOne(b, j, Cancelled);
    SettleOne(b, j, Completed);
  }

  /** What a request that ends may do to its job's runtime. */
  ghost predicate Ends(r: Runtime, stage: Stage, q: Runtime) {
    && q.job == r.job && (!q.settled ==> !r.settled)
    && if IsNext(stage) then CellsOk(q) && RestOk(q) else QuietRuntime(r, q)
  }

  lemma EndedBooks(rs: seq<Runtime>, inflight: map<nat, InFlight>, g: nat, q: Runtime)
    requires CellBooks(rs, inflight) && g in inflight && inflight[g].job.Some?
    requires Ends(rs[inflight[g].job.value], inflight[g].stage, q)
    ensures CellBooks(rs[inflight[g].job.value := q], inflight - {g})
  {
    var j := inflight[g].job.value;
    if IsNext(inflight[g].stage) {
      FlightEnds(rs, inflight, g, j, q);
    } else {
      OtherFlightEnds(rs, inflight, g);
      QuietBooks(rs, rs[j := q], inflight - {g});
    }
  }

  /** Request `g` ends, and its job's runtime becomes `q`. */
  lemma EndedCells(s: State, g: nat, q: Runtime, sends: seq<int>)
    requires CellInv(s) && g in s.inflight && s.inflight[g].job.Some?
    requires Ends(s.runtimes[s.inflight[g].job.value], s.inflight[g].stage, q)
    ensures CellInv(s.(runtimes := s.runtimes[s.inflight[g].job.value := q], inflight := s.inflight - {g},
        sends := sends))
  {
    var rs := s.runtimes[s.inflight[g].job.value := q];
    EndedBooks(s.runtimes, s.inflight, g, q);
    LaneBooksDrop(s, g);
    OwnIdsStay(s.runtimes, rs, s.inflight);
    LaneBooksOfRuntimes(s.(inflight := s.inflight - {g}), rs);
    QuietLaneBooksSends(s.(runtimes := rs, inflight := s.inflight - {g}), sends);
  }

  lemma QuietLaneBooksSends(s: State, sends: seq<int>)
    requires LaneBooks(s)
    ensures LaneBooks(s.(sends := sends))
  {
    assert forall f :: LaneJob(s.(sends := sends), f) == LaneJob(s, f);
  }

  /** What a finished request left in flight: everything but itself. */
  ghost function Without(s: State, g: nat, sends: seq<int>): State { s.(inflight := s.inflight - {g}, sends := sends) }

  lemma WithoutOther(s: State, g: nat, sends: seq<int>)
    requires CellInv(s) && g in s.inflight && !IsNext(s.inflight[g].stage)
    ensures CellInv(Without(s, g, sends))
  {
    OtherFlightEnds(s.runtimes, s.inflight, g);
    LaneBooksDrop(s, g);
    QuietLaneBooksSends(s.(inflight := s.inflight - {g}), sends);
  }

  lemma ReadyFits(s: State, g: nat)
    requires CellInv(s) && g in s.inflight && s.inflight[g].stage.Ready? && s.inflight[g].job.Some?
    ensures var r, stage := s.runtimes[s.inflight[g].job.value], s.inflight[g].stage;
            Ends(r, stage, Kept(r, stage)) && Ends(r, stage, Taken(r, stage))
  {
    var f := s.inflight[g];
    var r := s.runtimes[f.job.value];
    if IsNext(f.stage) {
      KeptFits(r, f.stage);
      TakenFits(r, f.stage);
    } else {
      OthersQuiet(r, f.stage);
    }
  }

  lemma KeptCells(s: State, g: nat, sends: seq<int>)
    requires CellInv(s) && Registered(s.runtimes, s.jobs) && g in s.inflight && s.inflight[g].stage.Ready?
    ensures CellInv(CacheUnsent(Without(s, g, sends), s.inflight[g]))
  {
    var f, t := s.inflight[g], Without(s, g, sends);
    if IsNext(f.stage) {
      assert LaneJob(t, f) == LaneJob(s, f);
      CacheTargetIsOwn(t, f);
      ReadyFits(s, g);
      EndedCells(s, g, Kept(s.runtimes[f.job.value], f.stage), sends);
    } else {
      WithoutOther(s, g, sends);
      CacheOther(t, f);
      QuietRuntimesKeep(t, CacheUnsent(t, f).runtimes);
    }
  }

  lemma QuietRuntimesKeep(s: State, rs: seq<Runtime>)
    requires CellInv(s) && QuietRuntimes(s.runtimes, rs)
    ensures CellInv(s.(runtimes := rs))
  {
    QuietBooks(s.runtimes, rs, s.inflight);
    LaneBooksOfRuntimes(s, rs);
    OwnIdsStay(s.runtimes, rs, s.inflight);
  }

  lemma CellInvOfFlow(s: State, t: State)
    requires CellInv(s) && SameFlow(s, t) && t.runtimes == s.runtimes && t.cyclesOpened == s.cyclesOpened
    ensures CellInv(t)
  {
    assert forall f :: LaneJob(t, f) == LaneJob(s, f);
  }

  lemma TakenCells(s: State, sends: seq<int>)
    requires CellInv(s) && s.generation in s.inflight && s.inflight[s.generation].stage.Ready?
    ensures var f := s.inflight[s.generation];
            CellInv(AcceptSent(RecordAccepted(Without(s, s.generation, sends), f), f))
  {
    var g := s.generation;
    var f, t := s.inflight[g], Without(s, g, sends);
    var v := AcceptSent(RecordAccepted(t, f), f);
    assert LaneJob(t, f) == f.job;
    RecordAcceptedFlow(t, f);
    AcceptSentFlow(RecordAccepted(t, f), f);
    AcceptCount(t, f);
    if f.job.None? {
      WithoutOther(s, g, sends);
      assert LaneJob(RecordAccepted(t, f), f).None?;
      CellInvOfFlow(t, v);
    } else {
      ReadyFits(s, g);
      AcceptedRuntimes(t, f);
      EndedCells(s, g, Taken(s.runtimes[f.job.value], f.stage), sends);
      CellInvOfFlow(t.(runtimes := v.runtimes), v);
    }
  }

  lemma AcceptCount(s: State, f: InFlight)
    requires f.stage.Ready?
    ensures AcceptSent(RecordAccepted(s, f), f).cyclesOpened == s.cyclesOpened
  {}

  lemma QuietNextSlot(c: Config, s: State, f: InFlight)
    requires s.generation !in s.inflight
    ensures Quiet(s, NextSlot(c, s, f))
  {}

  lemma ContinueCells(c: Config, s: State, g: nat, now: int, transport: Transport)
    requires CellInv(s) && Inv(s) && g in s.inflight && s.inflight[g].stage.Ready?
    ensures CellInv(Continue(c, s, g, now, transport))
  {
    var f, t, u := s.inflight[g], Without(s, g, s.sends), Without(s, g, s.sends + [s.inflight[g].deadline]);
    KeptCells(s, g, s.sends);
    KeptCells(s, g, s.sends + [f.deadline]);
    if g == s.generation {
      if now > f.deadline + c.drift {
        DegradedCells(c, CacheUnsent(t, f), now);
      } else if transport != Accepted {
        DegradedCells(c, CacheUnsent(u, f), now);
      } else {
        TakenCells(s, s.sends + [f.deadline]);
        var v := AcceptSent(RecordAccepted(u, f), f);
        RecordAcceptedFlow(u, f);
        AcceptSentFlow(RecordAccepted(u, f), f);
        QuietNextSlot(c, v, f);
        QuietKeeps(v, NextSlot(c, v, f));
      }
    }
  }

  lemma DegradedCells(c: Config, s: State, now: int)
    requires CellInv(s) && InFlightOk(s)
    ensures CellInv(Degrade(c, s, now))
  {
    QuietDegrade(c, s, now);
    QuietKeeps(s, Degrade(c, s, now));
  }

  // ----- whole runs

  lemma StepKeepsCells(c: Config, s: State, now: int, ev: Event)
    requires CellInv(s) && Inv(s) && Enabled(c, s, now, ev)
    ensures Orderable(s) && CellInv(Step(c, s, now, ev))
  {
    InvOrderable(s);
    match ev
    case EvEnqueue(job) => if Enqueue(c, s, job).Some? { EnqueueCells(c, s, now, job); }
    case EvTick(opens, closeOk) => if Drained(s) { TickCells(c, s, now, opens, closeOk); }
    case EvProduce(g, p) => if g in s.inflight && s.inflight[g].stage.Producing? { ProduceCells(c, s, g, p, now); }
    case EvContinue(g, t) => if g in s.inflight && s.inflight[g].stage.Ready? { ContinueCells(c, s, g, now, t); }
    case _ =>
      QuietCall(c, s, now, ev);
      QuietKeeps(s, Step(c, s, now, ev));
  }

  lemma QuietCall(c: Config, s: State, now: int, ev: Event)
    requires Inv(s) && (ev.EvCancel? || ev.EvComplete? || ev.EvStart? || ev.EvSuspend? || ev.EvResume? || ev.EvStop?)
    ensures Orderable(s) && Quiet(s, Step(c, s, now, ev))
  {
    InvOrderable(s);
    match ev
    case EvCancel(id) => QuietCancel(s, id);
    case EvComplete(id) => QuietComplete(s, id);
    case EvStart => QuietStart(c, s, now);
    case EvSuspend => QuietSuspend(s, now);
    case EvResume => QuietResume(c, s, now);
    case EvStop => QuietStop(s, now);
  }

  /** The environment kept its part at every event of the run. */
  ghost predicate EnabledRun(c: Config, tr: seq<Moment>) {
    tr == [] || (EnabledRun(c, tr[..|tr| - 1])
        && Enabled(c, Run(c, tr[..|tr| - 1]), tr[|tr| - 1].now, tr[|tr| - 1].event))
  }

  lemma {:induction false} RunKeepsCells(c: Config, tr: seq<Moment>)
    requires EnabledRun(c, tr)
    ensures CellInv(Run(c, tr))
    decreases |tr|
  {
    if tr != [] {
      var m := tr[|tr| - 1];
      RunKeepsCells(c, tr[..|tr| - 1]);
      StepKeepsCells(c, Run(c, tr[..|tr| - 1]), m.now, m.event);
    }
  }

  /**
   However slots are interrupted, the cells that lanes accepted for a job are a prefix of the cells
   that the job produced: none is lost, repeated or out of order, and there are never more than declared.
   At most one produced cell is still waiting while the job is unsettled, and a kept cell is that one.
   */
  lemma CellsConserved(c: Config, tr: seq<Moment>, j: nat)
    requires EnabledRun(c, tr) && j < |Run(c, tr).runtimes|
    ensures var r := Run(c, tr).runtimes[j];
            && r.accepted <= r.produced && |r.accepted| <= r.job.declared
            && (!r.settled ==> |r.produced| <= |r.accepted| + 1 && r.sentCells == |r.accepted|)
            && (!r.settled && r.pendingCell.Some? ==> r.produced == r.accepted + [r.pendingCell.value])
  {
    RunKeepsCells(c, tr);
    var s := Run(c, tr);
    if NextOnWay(s.inflight, j) {
      var g :| g in s.inflight && s.inflight[g].job == Some(j) && IsNext(s.inflight[g].stage);
      assert FlightCells(s.runtimes[j], s.inflight[g].stage);
    } else {
      assert RestOk(s.runtimes[j]);
    }
  }
}
