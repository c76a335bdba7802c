/**
 What a cycle does for its jobs when producers answer and lanes accept: every slot serves the job of its
 lane, and at the end every job that got a lane is settled, completed or, if a cancel was requested, cancelled.
 */
module CoverService {
  import opened Wrappers
  import opened Arithmetic
  import opened CoverSlots
  import opened CoverScheduler
  import opened CoverJobs
  import opened CoverCells
  import opened CoverTime
  import opened CoverOverlap
  import opened CoverOrder
  import Chains

  // ----- one slot

  /** A slot of the open cycle is due, every lane is open, and no answered request waits. */
  ghost predicate SlotDue(c: Config, s: State) {
    && Orderable(s) && Drained(s) && s.status == Active && s.cycle.Some?
    && (forall g :: g in s.inflight ==> g < s.generation)
    && var cycle := s.cycle.value;
       && cycle.nextSlot < c.schedule.CycleSlots() && LanesBelow(c.schedule.lanes) <= cycle.lanes
       && s.timer == Some(Timer(SlotAt(c.schedule, cycle.start, cycle.nextSlot).deadline, SlotDeadline))
       && forall l :: l in cycle.carried ==> cycle.carried[l] < |s.runtimes|
  }

  ghost function LaneDue(c: Config, s: State): int
    requires s.cycle.Some?
  {
    SlotAt(c.schedule, s.cycle.value.start, s.cycle.value.nextSlot).lane
  }

  ghost function JobDue(c: Config, s: State): Option<nat>
    requires s.cycle.Some?
  {
    if LaneDue(c, s) in s.cycle.value.carried then Some(s.cycle.value.carried[LaneDue(c, s)]) else None
  }

  lemma LaneInRange(c: Config, s: State)
    requires SlotDue(c, s)
    ensures 0 <= LaneDue(c, s) < c.schedule.lanes && LaneDue(c, s) in s.cycle.value.lanes
  {
    SlotOfOrdinal(c.schedule, s.cycle.value.start, s.cycle.value.nextSlot);
  }

  /** What the slot asks for. */
  ghost function StageDue(c: Config, s: State): Stage
    requires SlotDue(c, s)
  {
    if JobDue(c, s).Some? then FirstStage(s.runtimes[JobDue(c, s).value]) else Producing(DummyCell)
  }

  ghost function Begun(c: Config, s: State): State
    requires SlotDue(c, s)
  {
    LaneInRange(c, s);
    var f := InFlight(s.cycle.value.serial, LaneDue(c, s), s.timer.value.deadline, JobDue(c, s), StageDue(c, s));
    s.(timer := None, inflight := s.inflight[s.generation := f])
  }

  lemma SlotTick(c: Config, s: State, opens: set<nat>)
    requires SlotDue(c, s)
    ensures Next(c, s, At(s.timer.value.deadline, EvTick(opens, true))) == Begun(c, s)
  {
    LaneInRange(c, s);
  }

  /** The request once its cell is there: kept from before, or answered with `x`. */
  ghost function Answered(c: Config, s: State, x: Cell): State
    requires SlotDue(c, s)
  {
    var t := Begun(c, s);
    if t.inflight[s.generation].stage.Producing?
    then Produce(c, t, s.generation, Cell(x), s.timer.value.deadline) else t
  }

  /** The job's runtime at that point. */
  ghost function Asked(r: Runtime, x: Cell): Runtime {
    if FirstStage(r) == Producing(NextCell) then r.(produced := r.produced + [x]) else r
  }

  ghost function ReadyStage(stage: Stage, x: Cell): Stage {
    if stage.Producing? then Ready(stage.want, x) else stage
  }

  lemma AnsweredIs(c: Config, s: State, x: Cell)
    requires SlotDue(c, s)
    ensures var f := Begun(c, s).inflight[s.generation].(stage := ReadyStage(StageDue(c, s), x));
            var rs := if JobDue(c, s).Some? then var j := JobDue(c, s).value; s.runtimes[j := Asked(s.runtimes[j], x)]
                      else s.runtimes;
            Answered(c, s, x) == s.(timer := None, inflight := s.inflight[s.generation := f], runtimes := rs)
  {
    if JobDue(c, s).Some? {
      var j := JobDue(c, s).value;
      assert s.runtimes[j := s.runtimes[j]] == s.runtimes;
    }
  }

  /** The runtime of the slot's job once the lane accepted the cell. */
  ghost function ServedRuntime(r: Runtime, x: Cell): Runtime { Taken(Asked(r, x), ReadyStage(FirstStage(r), x)) }

  /** What a served slot leaves: the next timer, and everything but the job of its lane as it was. */
  ghost predicate Served(c: Config, s: State, t: State, x: Cell)
    requires SlotDue(c, s)
  {
    && MovesOn(c, s, t) && t.inflight == s.inflight
    && t.runtimes == (if JobDue(c, s).Some?
                      then s.runtimes[JobDue(c, s).value := ServedRuntime(s.runtimes[JobDue(c, s).value], x)]
                      else s.runtimes)
  }

  /** Accepting a request changes jobs, not the cycle. */
  lemma AcceptKeepsFlow(s: State, f: InFlight)
    requires f.stage.Ready?
    ensures var t := AcceptSent(s, f);
            && t.cycle == s.cycle && t.status == s.status && t.running == s.running && t.inflight == s.inflight
            && t.generation == s.generation && t.queued <= s.queued
    ensures LaneJob(s, f).None? ==> AcceptSent(s, f) == s
  {}

  /** After an accepted send: the next timer of the cycle. */
  ghost predicate MovesOn(c: Config, s: State, t: State)
    requires s.cycle.Some?
  {
    var cycle := s.cycle.value.(nextSlot := s.cycle.value.nextSlot + 1);
    && t.cycle == Some(cycle) && t.status == Active && t.running == s.running
    && t.generation == s.generation + 1 && t.queued <= s.queued
    && t.timer == Some(if cycle.nextSlot < c.schedule.CycleSlots()
                       then Timer(SlotAt(c.schedule, cycle.start, cycle.nextSlot).deadline, SlotDeadline)
                       else Timer(cycle.end, CycleBoundary))
  }

  lemma NextSlotMoves(c: Config, s: State, v: State, f: InFlight)
    requires s.cycle.Some? && s.cycle.value.serial == f.serial && s.status == Active
    requires v.cycle == s.cycle && v.status == s.status && v.running == s.running
    requires v.generation == s.generation && v.queued <= s.queued
    ensures var t := NextSlot(c, v, f); MovesOn(c, s, t) && t.inflight == v.inflight && t.runtimes == v.runtimes
  {}

  lemma ContinueServes(c: Config, s: State, f: InFlight)
    requires s.generation in s.inflight && s.inflight[s.generation] == f && f.stage.Ready?
    requires s.cycle.Some? && s.cycle.value.serial == f.serial && LaneJob(s, f) == f.job && s.status == Active
    requires f.job.Some? ==> f.job.value < |s.runtimes|
    ensures var t := Continue(c, s, s.generation, f.deadline, Accepted);
            && MovesOn(c, s, t) && t.inflight == s.inflight - {s.generation}
            && t.runtimes == (if f.job.Some? then s.runtimes[f.job.value := Taken(s.runtimes[f.job.value], f.stage)]
                              else s.runtimes)
  {
    var u := s.(inflight := s.inflight - {s.generation}, sends := s.sends + [f.deadline]);
    assert LaneJob(u, f) == f.job;
    AcceptKeepsFlow(RecordAccepted(u, f), f);
    if f.job.Some? { AcceptedRuntimes(u, f); }
    NextSlotMoves(c, s, AcceptSent(RecordAccepted(u, f), f), f);
  }

  /** The state once the lane accepted the cell. */
  ghost function SlotSent(c: Config, s: State, x: Cell): State
    requires SlotDue(c, s)
  {
    AnsweredIs(c, s, x);
    Continue(c, Answered(c, s, x), s.generation, s.timer.value.deadline, Accepted)
  }

  /** The answered request `t` of the slot due in `s`. */
  ghost predicate IsAnswered(c: Config, s: State, t: State, x: Cell)
    requires SlotDue(c, s)
  {
    && s.generation in t.inflight && t.cycle == s.cycle && t.generation == s.generation
    && t.status == Active && t.running == s.running && t.queued == s.queued
    && |t.runtimes| == |s.runtimes| && t.inflight - {s.generation} == s.inflight
    && var f := t.inflight[s.generation];
       && f.stage == ReadyStage(StageDue(c, s), x) && f.serial == s.cycle.value.serial
       && f.job == JobDue(c, s) && LaneJob(t, f) == f.job && f.deadline == s.timer.value.deadline
       && (f.job.Some? ==>
             && f.job.value < |s.runtimes|
             && t.runtimes == s.runtimes[f.job.value := Asked(s.runtimes[f.job.value], x)])
       && (f.job.None? ==> t.runtimes == s.runtimes)
  }

  lemma AnsweredFits(c: Config, s: State, x: Cell)
    requires SlotDue(c, s)
    ensures IsAnswered(c, s, Answered(c, s, x), x)
  {
    AnsweredIs(c, s, x);
    LaneInRange(c, s);
    assert Answered(c, s, x).inflight - {s.generation} == s.inflight;
  }

  lemma AnsweredServes(c: Config, s: State, t: State, x: Cell)
    requires SlotDue(c, s) && IsAnswered(c, s, t, x)
    ensures t.inflight[s.generation].stage.Ready?
    ensures Served(c, s, Continue(c, t, s.generation, s.timer.value.deadline, Accepted), x)
  {
    ContinueServes(c, t, t.inflight[s.generation]);
  }

  lemma SlotServes(c: Config, s: State, x: Cell)
    requires SlotDue(c, s)
    ensures Served(c, s, SlotSent(c, s, x), x)
  {
    AnsweredFits(c, s, x);
    AnsweredServes(c, s, Answered(c, s, x), x);
  }

  /** The events of the slot, one by one. */
  lemma SlotSteps(c: Config, s: State, x: Cell)
    requires SlotDue(c, s)
    ensures var now, g, t := s.timer.value.deadline, s.generation, Answered(c, s, x);
            && Next(c, s, At(now, EvTick({}, true))) == Begun(c, s)
            && (if StageDue(c, s).Producing? then Next(c, Begun(c, s), At(now, EvProduce(g, Cell(x)))) == t
                else Begun(c, s) == t)
            && Next(c, t, At(now, EvContinue(g, Accepted))) == SlotSent(c, s, x)
  {
    SlotTick(c, s, {});
    SlotServes(c, s, x);
    AnsweredIs(c, s, x);
    ContinueOne(c, Answered(c, s, x), s.generation, s.timer.value.deadline);
  }

  lemma TwoEvents(c: Config, s: State, m: Moment, n: Moment)
    ensures After(c, s, [m, n]) == Next(c, Next(c, s, m), n)
  {
    AfterOne(c, s, [], m);
    AfterOne(c, s, [] + [m], n);
    assert [] + [m] + [n] == [m, n];
  }

  lemma ThreeEvents(c: Config, s: State, m: Moment, n: Moment, k: Moment)
    ensures After(c, s, [m, n, k]) == Next(c, Next(c, Next(c, s, m), n), k)
  {
    TwoEvents(c, s, m, n);
    AfterOne(c, s, [m, n], k);
    assert [m, n] + [k] == [m, n, k];
  }

  /** The events of a slot whose producer answers and whose lane accepts. */
  ghost function EventsOf(c: Config, s: State, x: Cell): seq<Moment>
    requires SlotDue(c, s)
  {
    var now, g := s.timer.value.deadline, s.generation;
    var tick, answer := At(now, EvTick({}, true)), At(now, EvProduce(g, Cell(x)));
    var send := At(now, EvContinue(g, Accepted));
    if StageDue(c, s).Producing? then [tick, answer, send] else [tick, send]
  }

  lemma SlotEvents(c: Config, s: State, x: Cell)
    requires SlotDue(c, s)
    ensures AllAt(EventsOf(c, s, x), s.timer.value.deadline) && After(c, s, EventsOf(c, s, x)) == SlotSent(c, s, x)
  {
    var now, g := s.timer.value.deadline, s.generation;
    var tick, answer := At(now, EvTick({}, true)), At(now, EvProduce(g, Cell(x)));
    var send := At(now, EvContinue(g, Accepted));
    SlotSteps(c, s, x);
    if StageDue(c, s).Producing? { ThreeEvents(c, s, tick, answer, send); } else { TwoEvents(c, s, tick, send); }
  }

  // ----- what the slots of a cycle add up to

  /** The job as it was admitted: unsettled, with cells left to send. */
  ghost predicate Waiting(r: Runtime) { !r.settled && !r.completed && !r.cancelSent && r.sentCells < r.job.declared }

  /** The job after `n` of its slots: cancelled at the first one if that was requested, or `n` cells further. */
  ghost predicate JobAfter(r: Runtime, q: Runtime, n: nat) {
    && q.job == r.job
    && (if r.cancelRequested then
          if n == 0 then q == r else q.settled && q.cancelSent && q.outcomes == r.outcomes + [Cancelled]
        else if r.sentCells + n < r.job.declared then
          && Waiting(q) && !q.cancelRequested && q.outcomes == r.outcomes
          && q.sentCells == r.sentCells + n && |q.accepted| == |r.accepted| + n
        else
          && q.settled && q.outcomes == r.outcomes + [Completed]
          && q.sentCells == r.job.declared && |q.accepted| == |r.accepted| + (r.job.declared - r.sentCells))
  }

  lemma OneSlot(r: Runtime, q: Runtime, n: nat, x: Cell)
    requires Waiting(r) && JobAfter(r, q, n)
    ensures JobAfter(r, ServedRuntime(q, x), n + 1)
  {}

  /** The lane of slot `n`, taking the lanes in turn. */
  ghost function Turn(lanes: nat, n: nat): nat {
    if n == 0 then 0 else if Turn(lanes, n - 1) + 1 == lanes then 0 else Turn(lanes, n - 1) + 1
  }

  /** How many of the first `n` slots belong to lane `l`. */
  ghost function LaneSlots(lanes: nat, l: nat, n: nat): nat {
    if n == 0 then 0 else LaneSlots(lanes, l, n - 1) + (if Turn(lanes, n - 1) == l then 1 else 0)
  }

  /** After `m` rounds and `r` more slots. */
  lemma {:induction false} Rounds(lanes: nat, l: nat, m: nat, r: nat)
    requires l < lanes && r < lanes
    ensures Turn(lanes, Times(m, lanes) + r) == r
    ensures LaneSlots(lanes, l, Times(m, lanes) + r) == m + (if l < r then 1 else 0)
    decreases m, r
  {
    if r > 0 { Rounds(lanes, l, m, r - 1); } else if m > 0 { Rounds(lanes, l, m - 1, lanes - 1); }
  }

  lemma RoundsOf(lanes: nat, n: nat, m: nat, r: nat)
    requires r < lanes && n == m * lanes + r
    ensures n == Times(m, lanes) + r
  {
    TimesIs(m, lanes);
  }

  lemma TurnIs(lanes: nat, n: nat, m: nat, r: nat)
    requires r < lanes && n == m * lanes + r
    ensures Turn(lanes, n) == r
  {
    RoundsOf(lanes, n, m, r);
    Rounds(lanes, 0, m, r);
  }

  lemma LaneSlotsOfCycle(s: Schedule, l: nat)
    requires l < s.lanes
    ensures s.CycleSlots() >= 0 && LaneSlots(s.lanes, l, s.CycleSlots()) == s.SlotsPerLane()
  {
    PositiveProducts(s);
    SlotsOfCycle(s);
    Rounds(s.lanes, l, s.SlotsPerLane(), 0);
  }

  lemma SlotsOfCycle(s: Schedule)
    ensures s.SlotsPerLane() >= 1 && s.CycleSlots() == Times(s.SlotsPerLane(), s.lanes)
  {
    PositiveProducts(s);
    MulAssoc(s.lanes, s.frames, s.epochs);
    TimesIs(s.SlotsPerLane(), s.lanes);
  }

  lemma Regrouped(e: int, lanes: int, frames: int, frame: int, lane: int)
    ensures e * (lanes * frames) + (frame * lanes + lane) == (e * frames + frame) * lanes + lane
  {
    MulAssoc(e, frames, lanes);
    Distribute(e * frames, frame, lanes);
  }

  /** Slots take the lanes in turn. */
  lemma LaneOfSlot(s: Schedule, start: int, ordinal: nat)
    ensures SlotAt(s, start, ordinal).lane == Turn(s.lanes, ordinal)
  {
    PositiveProducts(s);
    TurnOf(ordinal, s.lanes, s.frames);
  }

  lemma TurnOf(ordinal: nat, lanes: int, frames: int)
    requires lanes >= 1 && frames >= 1 && lanes * frames >= 1
    ensures ordinal % (lanes * frames) % lanes == Turn(lanes, ordinal)
  {
    var n := lanes * frames;
    var e, within := ordinal / n, ordinal % n;
    var frame, lane := within / lanes, within % lanes;
    assert ordinal == e * n + within && within == frame * lanes + lane;
    Regrouped(e, lanes, frames, frame, lane);
    Monotone(0, e, frames);
    TurnIs(lanes, ordinal, e * frames + frame, lane);
  }

  // ----- the slots of a cycle

  /** Events in order of time, none before `a` and none after `b`. */
  ghost predicate Between(ms: seq<Moment>, a: int, b: int) {
    Monotonic(ms) && forall k :: 0 <= k < |ms| ==> a <= ms[k].now <= b
  }

  lemma BetweenAppend(ms: seq<Moment>, more: seq<Moment>, a: int, m: int, n: int, b: int)
    requires Between(ms, a, m) && Between(more, n, b) && a <= m <= n <= b
    ensures Between(ms + more, a, b)
  {
    var all := ms + more;
    forall k | 0 < k < |all| ensures all[k - 1].now <= all[k].now {
      if k < |ms| { assert ms[k - 1].now <= ms[k].now; }
      if k > |ms| { assert more[k - |ms| - 1].now <= more[k - |ms|].now; }
    }
  }

  lemma AllAtBetween(ms: seq<Moment>, now: int)
    requires AllAt(ms, now)
    ensures Between(ms, now, now)
  {}

  /** The cycle that `s` opened has served its first `n` slots, each for the job of its lane. */
  ghost predicate ServedUpTo(c: Config, s: State, t: State, n: nat) {
    && s.cycle.Some? && t.cycle == Some(s.cycle.value.(nextSlot := n)) && |t.runtimes| == |s.runtimes|
    && t.status == Active && t.running == s.running && t.inflight == s.inflight && t.queued <= s.queued
    && (forall j: nat :: j < |s.runtimes| && j !in s.cycle.value.carried.Values ==> t.runtimes[j] == s.runtimes[j])
    && forall l :: l in s.cycle.value.carried ==>
         var j := s.cycle.value.carried[l];
         j < |s.runtimes| && JobAfter(s.runtimes[j], t.runtimes[j], LaneSlots(c.schedule.lanes, l, n))
  }

  /** A fresh cycle with a lane for each of its jobs, which are distinct and have cells left to send. */
  ghost predicate Fresh(c: Config, s: State) {
    && SlotDue(c, s)
    && var cycle := s.cycle.value;
       && cycle.nextSlot == 0 && cycle.end == cycle.start + c.schedule.CycleMs()
       && (forall l :: l in cycle.carried ==> l < c.schedule.lanes && Waiting(s.runtimes[cycle.carried[l]]))
       && (forall k, l :: k in cycle.carried && l in cycle.carried && k != l ==> cycle.carried[k] != cycle.carried[l])
  }

  lemma OtherJobs(c: Config, s: State, t: State, u: State, x: Cell)
    requires Fresh(c, s) && SlotDue(c, t) && ServedUpTo(c, s, t, t.cycle.value.nextSlot) && Served(c, t, u, x)
    ensures forall j: nat :: j < |s.runtimes| && j !in s.cycle.value.carried.Values ==> u.runtimes[j] == s.runtimes[j]
  {
    var carried := s.cycle.value.carried;
    assert JobDue(c, t).Some? ==> JobDue(c, t).value in carried.Values;
  }

  lemma LaneServed(c: Config, s: State, t: State, u: State, l: nat, x: Cell)
    requires Fresh(c, s) && SlotDue(c, t) && ServedUpTo(c, s, t, t.cycle.value.nextSlot) && Served(c, t, u, x)
    requires l in s.cycle.value.carried
    ensures var j := s.cycle.value.carried[l];
            JobAfter(s.runtimes[j], u.runtimes[j], LaneSlots(c.schedule.lanes, l, t.cycle.value.nextSlot + 1))
  {
    var n, j := t.cycle.value.nextSlot, s.cycle.value.carried[l];
    LaneOfSlot(c.schedule, t.cycle.value.start, n);
    assert JobAfter(s.runtimes[j], t.runtimes[j], LaneSlots(c.schedule.lanes, l, n));
    if Turn(c.schedule.lanes, n) == l {
      OneSlot(s.runtimes[j], t.runtimes[j], LaneSlots(c.schedule.lanes, l, n), x);
    } else {
      assert u.runtimes[j] == t.runtimes[j];
    }
  }

  lemma ServeOne(c: Config, s: State, t: State, u: State, x: Cell)
    requires Fresh(c, s) && SlotDue(c, t) && ServedUpTo(c, s, t, t.cycle.value.nextSlot) && Served(c, t, u, x)
    ensures ServedUpTo(c, s, u, t.cycle.value.nextSlot + 1)
  {
    OtherJobs(c, s, t, u, x);
    forall l | l in s.cycle.value.carried
      ensures var j := s.cycle.value.carried[l];
              JobAfter(s.runtimes[j], u.runtimes[j], LaneSlots(c.schedule.lanes, l, t.cycle.value.nextSlot + 1))
    {
      LaneServed(c, s, t, u, l, x);
    }
  }

  /** After a slot the next one is due, or the end of the cycle. */
  ghost predicate GoesOn(c: Config, t: State) {
    t.cycle.Some? &&
    if t.cycle.value.nextSlot < c.schedule.CycleSlots() then SlotDue(c, t)
    else t.timer == Some(Timer(t.cycle.value.end, CycleBoundary))
  }

  ghost predicate Serving(c: Config, s: State, t: State, n: nat) { ServedUpTo(c, s, t, n) && GoesOn(c, t) }

  lemma ServeNone(c: Config, s: State)
    requires Fresh(c, s)
    ensures Serving(c, s, s, 0)
  {
    assert s.cycle == Some(s.cycle.value.(nextSlot := 0));
  }

  lemma ServeNext(c: Config, s: State, t: State, n: nat, x: Cell)
    requires Fresh(c, s) && Serving(c, s, t, n) && n < c.schedule.CycleSlots()
    ensures SlotDue(c, t) && Serving(c, s, SlotSent(c, t, x), n + 1)
  {
    SlotServes(c, t, x);
    ServeOne(c, s, t, SlotSent(c, t, x), x);
  }

  /** The time up to which the state has come: that of its next timer. */
  ghost function Clock(s: State): int { if s.timer.Some? then s.timer.value.deadline else 0 }

  /** The events lead from `s` to `t`, in order and between their clocks. */
  ghost predicate Leads(c: Config, s: State, ms: seq<Moment>, t: State) {
    t == After(c, s, ms) && Clock(s) <= Clock(t) && Between(ms, Clock(s), Clock(t))
  }

  lemma LeadsOn(c: Config, s: State, ms: seq<Moment>, t: State, more: seq<Moment>, u: State)
    requires Leads(c, s, ms, t) && Leads(c, t, more, u)
    ensures Leads(c, s, ms + more, u)
  {
    AfterAppend(c, s, ms, more);
    BetweenAppend(ms, more, Clock(s), Clock(t), Clock(t), Clock(u));
  }

  ghost function LeadsIn(c: Config): (State, seq<Moment>, State) -> bool { (s, ms, t) => Leads(c, s, ms, t) }

  lemma LeadsCompose(c: Config)
    ensures Chains.Composes(LeadsIn(c))
  {
    forall s, t, u, ms: seq<Moment>, more: seq<Moment> | LeadsIn(c)(s, ms, t) && LeadsIn(c)(t, more, u)
      ensures LeadsIn(c)(s, ms + more, u)
    {
      LeadsOn(c, s, ms, t, more, u);
    }
  }

  /** The timer after a slot is not before that slot. */
  lemma TimerAdvances(c: Config, t: State, u: State)
    requires SlotDue(c, t) && t.cycle.value.end == t.cycle.value.start + c.schedule.CycleMs() && MovesOn(c, t, u)
    ensures u.timer.Some? && t.timer.value.deadline <= u.timer.value.deadline
  {
    DeadlinesSpaced(c.schedule, t.cycle.value.start, t.cycle.value.nextSlot);
  }

  lemma LeadsAt(c: Config, t: State, ms: seq<Moment>, u: State, now: int)
    requires u == After(c, t, ms) && AllAt(ms, now) && Clock(t) == now <= Clock(u)
    ensures Leads(c, t, ms, u)
  {}

  lemma SlotLeads(c: Config, t: State, x: Cell)
    requires SlotDue(c, t) && t.cycle.value.end == t.cycle.value.start + c.schedule.CycleMs()
    ensures Leads(c, t, EventsOf(c, t, x), SlotSent(c, t, x))
  {
    SlotServes(c, t, x);
    SlotEvents(c, t, x);
    TimerAdvances(c, t, SlotSent(c, t, x));
    LeadsAt(c, t, EventsOf(c, t, x), SlotSent(c, t, x), t.timer.value.deadline);
  }

  ghost function ServingFrom(c: Config, s: State): (nat, State) -> bool { (n: nat, t: State) => Serving(c, s, t, n) }

  lemma SlotAdvances(c: Config, s: State, t: State, n: nat, x: Cell)
    requires Fresh(c, s) && ServingFrom(c, s)(n, t) && n < c.schedule.CycleSlots()
    ensures exists ms, u :: LeadsIn(c)(t, ms, u) && ServingFrom(c, s)(n + 1, u)
  {
    ServeNext(c, s, t, n, x);
    SlotLeads(c, t, x);
    assert LeadsIn(c)(t, EventsOf(c, t, x), SlotSent(c, t, x)) && ServingFrom(c, s)(n + 1, SlotSent(c, t, x));
  }

  lemma SlotsAdvance(c: Config, s: State, n: nat, x: Cell)
    requires Fresh(c, s) && n <= c.schedule.CycleSlots()
    ensures Chains.Advances(LeadsIn(c), ServingFrom(c, s), n)
  {
    forall k: nat, t | k < n && ServingFrom(c, s)(k, t)
      ensures exists ms, u :: LeadsIn(c)(t, ms, u) && ServingFrom(c, s)(k + 1, u)
    {
      SlotAdvances(c, s, t, k, x);
    }
  }

  /** Events that serve the first `n` slots, each at its deadline. */
  lemma ServeSlots(c: Config, s: State, n: nat, x: Cell) returns (ms: seq<Moment>, t: State)
    requires Fresh(c, s) && n <= c.schedule.CycleSlots()
    ensures Leads(c, s, ms, t) && Serving(c, s, t, n)
  {
    LeadsCompose(c);
    SlotsAdvance(c, s, n, x);
    ServeNone(c, s);
    ms, t := Chains.Chain(LeadsIn(c), ServingFrom(c, s), s, n);
  }

  lemma {:induction false} AfterAppend(c: Config, s: State, ms: seq<Moment>, more: seq<Moment>)
    ensures After(c, s, ms + more) == After(c, After(c, s, ms), more)
    decreases |more|
  {
    if more == [] {
      assert ms + more == ms;
    } else {
      var rest, m := more[..|more| - 1], more[|more| - 1];
      AfterAppend(c, s, ms, rest);
      assert ms + more == ms + rest + [m];
      AfterOne(c, s, ms + rest, m);
    }
  }

  /** A job whose lane had all its slots is settled: cancelled if that was requested, or completed in full. */
  ghost predicate Finished(r: Runtime, q: Runtime) {
    && q.job == r.job && q.settled
    && q.outcomes == r.outcomes + [if r.cancelRequested then Cancelled else Completed]
    && (!r.cancelRequested ==> q.sentCells == r.job.declared)
  }

  /** What a cycle leaves whose slots were all served. */
  ghost predicate AllFinished(s: State, t: State) {
    && s.cycle.Some? && |t.runtimes| == |s.runtimes|
    && t.status == Active && t.running == s.running && t.inflight == s.inflight && t.queued <= s.queued
    && t.cycle.Some? && t.cycle.value.carried == s.cycle.value.carried && t.cycle.value.end == s.cycle.value.end
    && t.timer == Some(Timer(s.cycle.value.end, CycleBoundary))
    && (forall j: nat :: j < |s.runtimes| && j !in s.cycle.value.carried.Values ==> t.runtimes[j] == s.runtimes[j])
    && (forall l :: l in s.cycle.value.carried ==>
          var j := s.cycle.value.carried[l]; j < |s.runtimes| && Finished(s.runtimes[j], t.runtimes[j]))
  }

  lemma JobFinishes(c: Config, r: Runtime, q: Runtime, l: nat)
    requires Waiting(r) && l < c.schedule.lanes && r.job.declared <= c.schedule.SlotsPerLane()
    requires c.schedule.CycleSlots() >= 0 && JobAfter(r, q, LaneSlots(c.schedule.lanes, l, c.schedule.CycleSlots()))
    ensures Finished(r, q)
  {
    PositiveProducts(c.schedule);
    LaneSlotsOfCycle(c.schedule, l);
  }

  ghost predicate AllFit(c: Config, s: State) {
    s.cycle.Some? && forall l :: l in s.cycle.value.carried ==>
      var j := s.cycle.value.carried[l];
      j < |s.runtimes| && s.runtimes[j].job.declared <= c.schedule.SlotsPerLane()
  }

  lemma ServedAreFinished(c: Config, s: State, t: State)
    requires Fresh(c, s) && AllFit(c, s) && c.schedule.CycleSlots() >= 0
    requires Serving(c, s, t, c.schedule.CycleSlots())
    ensures AllFinished(s, t)
  {
    forall l | l in s.cycle.value.carried
      ensures var j := s.cycle.value.carried[l]; Finished(s.runtimes[j], t.runtimes[j])
    {
      var j := s.cycle.value.carried[l];
      JobFinishes(c, s.runtimes[j], t.runtimes[j], l);
    }
  }

  /** Served to its end, a cycle finishes every job that it carries. */
  lemma CycleFinishes(c: Config, s: State, x: Cell) returns (ms: seq<Moment>, t: State)
    requires Fresh(c, s) && AllFit(c, s)
    ensures Leads(c, s, ms, t) && AllFinished(s, t)
  {
    PositiveProducts(c.schedule);
    ms, t := ServeSlots(c, s, c.schedule.CycleSlots(), x);
    ServedAreFinished(c, s, t);
  }
}
