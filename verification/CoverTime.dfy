/** When cycles open and slots are sent, over whole runs with a monotone clock. */
module CoverTime {
  import opened Wrappers
  import opened Arithmetic
  import opened CoverSlots
  import opened CoverScheduler
  import opened CoverJobs

  /** Cycles start on the phase grid, and none before the previous one is over. */
  ghost predicate StartsOk(c: Config, starts: seq<int>) {
    && (forall i :: 0 <= i < |starts| ==> OnGrid(c.schedule, starts[i]))
    && (forall i :: 0 < i < |starts| ==> starts[i - 1] + c.schedule.CycleMs() <= starts[i])
  }

  /** Sends keep the guaranteed spacing. */
  ghost predicate SendsOk(c: Config, sends: seq<int>) {
    forall i :: 0 < i < |sends| ==> sends[i - 1] + Spacing(c.schedule) <= sends[i]
  }

  /** `t` does not lie inside a cycle that was opened before. */
  ghost predicate AfterLast(c: Config, starts: seq<int>, t: int) {
    starts != [] ==> starts[|starts| - 1] + c.schedule.CycleMs() <= t
  }

  /** The open cycle is the last one started. */
  ghost predicate CycleOk(c: Config, starts: seq<int>, cycle: Cycle) {
    && starts != [] && cycle.start == starts[|starts| - 1] && cycle.end == cycle.start + c.schedule.CycleMs()
    && cycle.nextSlot <= c.schedule.CycleSlots()
  }

  /** The first slot that may still be sent, counted from the start of the last cycle. */
  ghost function NextIndex(c: Config, s: State): int {
    if s.status == Active && s.cycle.Some? then s.cycle.value.nextSlot else c.schedule.CycleSlots()
  }

  /** The last send leaves room for slot `index` of the last cycle. */
  ghost predicate RoomFor(c: Config, starts: seq<int>, sends: seq<int>, index: int) {
    sends != [] ==>
      && starts != []
      && sends[|sends| - 1] + Spacing(c.schedule) <= starts[|starts| - 1] + Offset(c.schedule, index)
  }

  ghost predicate DueOk(c: Config, s: State, deadline: int) {
    s.cycle.Some? && s.cycle.value.nextSlot < c.schedule.CycleSlots()
        && deadline == s.cycle.value.start + Offset(c.schedule, s.cycle.value.nextSlot)
  }

  ghost predicate TimersOk(c: Config, s: State) {
    && (s.timer.Some? && s.timer.value.kind == OpenBoundary ==>
        OnGrid(c.schedule, s.timer.value.deadline) && AfterLast(c, s.starts, s.timer.value.deadline))
    && (s.timer.Some? && s.timer.value.kind == SlotDeadline ==> DueOk(c, s, s.timer.value.deadline))
    && (s.generation in s.inflight ==> DueOk(c, s, s.inflight[s.generation].deadline))
  }

  ghost predicate Past(c: Config, s: State, now: int) {
    if s.cycle.Some? then CycleOk(c, s.starts, s.cycle.value) else AfterLast(c, s.starts, now)
  }

  ghost predicate History(c: Config, s: State) {
    StartsOk(c, s.starts) && SendsOk(c, s.sends) && RoomFor(c, s.starts, s.sends, NextIndex(c, s))
  }

  ghost predicate TimeInv(c: Config, s: State, now: int) { History(c, s) && TimersOk(c, s) && Past(c, s, now) }

  lemma OffsetMonotone(c: Config, i: int, j: int)
    requires i <= j
    ensures Offset(c.schedule, i) <= Offset(c.schedule, j)
  {
    OffsetSteps(c.schedule, i, j - i);
    SpacingAtLeast25(c.schedule);
    Monotone(0, j - i, Spacing(c.schedule));
  }

  lemma RoomLater(c: Config, starts: seq<int>, sends: seq<int>, i: int, j: int)
    requires RoomFor(c, starts, sends, i) && i <= j
    ensures RoomFor(c, starts, sends, j)
  {
    OffsetMonotone(c, i, j);
  }

  lemma Later(c: Config, s: State, now: int, now': int)
    requires TimeInv(c, s, now) && now <= now'
    ensures TimeInv(c, s, now')
  {}

  // ----- steps that neither send nor open

  /** The state between timers: nothing armed, nothing of the current generation in flight. */
  ghost predicate Base(c: Config, s: State, now: int) { History(c, s) && Past(c, s, now) && Idle(s) }

  /** What holds of a cycle that is not going to be served any more. */
  ghost predicate Spent(c: Config, s: State, now: int) {
    StartsOk(c, s.starts) && SendsOk(c, s.sends) && RoomFor(c, s.starts, s.sends, c.schedule.CycleSlots())
        && Past(c, s, now)
  }

  lemma InvIsSpent(c: Config, s: State, now: int)
    requires TimeInv(c, s, now)
    ensures Spent(c, s, now)
  {
    if s.status == Active && s.cycle.Some? {
      RoomLater(c, s.starts, s.sends, s.cycle.value.nextSlot, c.schedule.CycleSlots());
    }
  }

  lemma Retire(c: Config, s: State, now: int, t: State)
    requires Spent(c, s, now) && t.starts == s.starts && t.sends == s.sends && (t.status != Active || t.cycle.None?)
        && Idle(t)
    requires t.cycle.Some? ==> s.cycle.Some? && t.cycle.value == s.cycle.value.(carried := t.cycle.value.carried)
    requires t.cycle.None? ==> s.cycle.None? || now >= s.cycle.value.end
    ensures Base(c, t, now)
  {}

  lemma ArmEnd(c: Config, s: State, now: int)
    requires Base(c, s, now) && s.cycle.Some? && InFlightOk(s)
    ensures TimeInv(c, Arm(s, s.cycle.value.end, CycleBoundary), now)
  {}

  lemma ArmOpen(c: Config, s: State, now: int, inclusive: bool)
    requires Base(c, s, now) && s.cycle.None? && InFlightOk(s)
    ensures TimeInv(c, Arm(s, NextBoundary(c.schedule, now, inclusive), OpenBoundary), now)
  {
    NextBoundaryIsFirst(c.schedule, now, inclusive);
  }

  lemma AwaitEndTime(c: Config, s: State, now: int)
    requires Base(c, s, now) && s.cycle.Some? && InFlightOk(s) && s.status != Active
    ensures TimeInv(c, AwaitEnd(s, now), now)
  {
    if now <= s.cycle.value.end {
      ArmEnd(c, s, now);
    } else {
      Retire(c, s, now, Close(s));
    }
  }

  lemma SuspendTime(c: Config, s: State, now: int)
    requires TimeInv(c, s, now) && InFlightOk(s)
    ensures TimeInv(c, Suspend(s, now), now)
  {
    InvIsSpent(c, s, now);
    if s.status != Stopped && s.status != Suspended {
      var t := Interrupt(Disarm(s).(status := Suspended));
      Retire(c, s, now, t);
      if s.cycle.Some? { AwaitEndTime(c, t, now); }
    }
  }

  lemma ResumeTime(c: Config, s: State, now: int)
    requires TimeInv(c, s, now) && InFlightOk(s)
    ensures TimeInv(c, Resume(c, s, now), now)
  {
    InvIsSpent(c, s, now);
    if s.status == Suspended {
      var t := Disarm(s).(running := true, status := Starting);
      if s.cycle.Some? && now < s.cycle.value.end {
        Retire(c, s, now, t);
        ArmEnd(c, t, now);
      } else {
        Retire(c, s, now, Close(t));
        ArmOpen(c, Close(t), now, false);
      }
    }
  }

  lemma StartTime(c: Config, s: State, now: int)
    requires TimeInv(c, s, now) && InFlightOk(s)
    ensures TimeInv(c, Start(c, s, now), now)
  {
    InvIsSpent(c, s, now);
    if s.status == Stopped {
      var t := s.(running := true, status := Starting, timer := None);
      Retire(c, s, now, t);
      if s.cycle.Some? {
        ArmEnd(c, t, now);
        assert Start(c, s, now) == Arm(t, s.cycle.value.end, CycleBoundary);
      } else {
        ArmOpen(c, t, now, true);
        assert Start(c, s, now) == Arm(t, NextBoundary(c.schedule, now, true), OpenBoundary);
      }
    }
  }

  lemma StopTime(c: Config, s: State, now: int)
    requires TimeInv(c, s, now) && InFlightOk(s)
    ensures TimeInv(c, Stop(s, now), now)
  {
    InvIsSpent(c, s, now);
    if s.status != Stopped || s.cycle.Some? {
      var t := Settle(Disarm(s).(running := false, status := Stopped), s.jobs.Values, Failed);
      if s.cycle.None? {
        Retire(c, s, now, t);
      } else {
        var u := t.(cycle := Some(s.cycle.value.(carried := map[])));
        Retire(c, s, now, u);
        AwaitEndTime(c, u, now);
      }
    }
  }

  lemma DegradeTime(c: Config, s: State, now: int)
    requires Spent(c, s, now) && InFlightOk(s) && (TimeInv(c, s, now) || s.status == Active)
    ensures TimeInv(c, Degrade(c, s, now), now)
  {
    if s.status != Stopped && s.status != Suspended {
      var t := Interrupt(Disarm(s).(status := Degraded));
      if s.cycle.Some? && now <= s.cycle.value.end {
        Retire(c, s, now, t);
        AwaitEndTime(c, t, now);
      } else {
        Retire(c, s, now, Close(t));
        if s.running { ArmOpen(c, Close(t), now, false); }
      }
    }
  }

  lemma LateTimerTime(c: Config, s: State, kind: TimerKind, now: int)
    requires TimeInv(c, s, now) && Idle(s) && InFlightOk(s)
    requires kind == CycleBoundary && s.cycle.Some? ==> s.cycle.value.end <= now
    requires kind == OpenBoundary ==> s.cycle.None?
    ensures TimeInv(c, LateTimer(c, s, kind, now), now)
  {
    InvIsSpent(c, s, now);
    if kind == SlotDeadline {
      DegradeTime(c, s, now);
    } else {
      Retire(c, s, now, LateTimer(c, s, kind, now));
    }
  }

  // ----- opening a cycle

  /** The starts and sends once a cycle was opened at `boundary`. */
  lemma OpenHistory(c: Config, starts: seq<int>, sends: seq<int>, boundary: int)
    requires StartsOk(c, starts) && RoomFor(c, starts, sends, c.schedule.CycleSlots())
    requires OnGrid(c.schedule, boundary) && AfterLast(c, starts, boundary)
    ensures StartsOk(c, starts + [boundary]) && RoomFor(c, starts + [boundary], sends, 0)
    ensures RoomFor(c, starts + [boundary], sends, c.schedule.CycleSlots())
  {
    OffsetAcross(c.schedule);
    PositiveProducts(c.schedule);
    RoomLater(c, starts + [boundary], sends, 0, c.schedule.CycleSlots());
  }

  lemma ArmSlotTime(c: Config, s: State, now: int)
    requires History(c, s) && Past(c, s, now) && InFlightOk(s) && s.cycle.Some?
    requires s.cycle.value.nextSlot < c.schedule.CycleSlots()
    ensures TimeInv(c, ArmSlot(c, s), now)
  {
    DeadlineIsOffset(c.schedule, s.cycle.value.start, s.cycle.value.nextSlot);
  }

  lemma OpenedFields(c: Config, s: State, boundary: int, opens: set<nat>)
    requires Orderable(s)
    ensures var t := Opened(c, s, boundary, opens);
            && t.cycle.value.start == boundary && t.cycle.value.end == boundary + c.schedule.CycleMs()
            && t.cycle.value.nextSlot == 0 && t.starts == s.starts + [boundary] && t.sends == s.sends
            && t.inflight == s.inflight && t.generation == s.generation && t.timer == s.timer
  {}

  lemma OpenedTime(c: Config, s: State, boundary: int, now: int, opens: set<nat>)
    requires Base(c, s, now) && s.cycle.None? && InFlightOk(s) && Orderable(s)
    requires OnGrid(c.schedule, boundary) && AfterLast(c, s.starts, boundary)
    ensures var t := Opened(c, s, boundary, opens);
            Base(c, t, now) && InFlightOk(t) && t.cycle.value.nextSlot == 0
  {
    OpenHistory(c, s.starts, s.sends, boundary);
    PositiveProducts(c.schedule);
    OpenedFields(c, s, boundary, opens);
  }

  lemma OpenTime(c: Config, s: State, boundary: int, now: int, opens: set<nat>)
    requires Base(c, s, now) && s.cycle.None? && InFlightOk(s) && Orderable(s)
    requires OnGrid(c.schedule, boundary) && AfterLast(c, s.starts, boundary)
    ensures TimeInv(c, OpenCycle(c, s, boundary, opens), now)
  {
    var t := Opened(c, s, boundary, opens);
    OpenedTime(c, s, boundary, now, opens);
    PositiveProducts(c.schedule);
    if t.status == Active { ArmSlotTime(c, t, now); } else { ArmEnd(c, t, now); }
  }

  /** The cycle that is over is closed. */
  lemma ClosedTime(c: Config, s: State, now: int)
    requires TimeInv(c, s, now) && Idle(s) && Inv(s) && s.cycle.Some? && s.cycle.value.end <= now
    ensures var t := Close(Finalize(s));
            Base(c, t, now) && t.cycle.None? && InFlightOk(t) && Orderable(t) && t.starts == s.starts
                && t.status == s.status && t.running == s.running
  {
    FinalizeKeeps(s);
    CloseKeepsInv(Finalize(s));
    InvIsSpent(c, s, now);
    var t := Close(Finalize(s));
    InvOrderable(t);
    Retire(c, s, now, t);
  }

  lemma EndCycleTime(c: Config, s: State, boundary: int, now: int, closeOk: bool, opens: set<nat>)
    requires TimeInv(c, s, now) && Idle(s) && Inv(s) && boundary <= now
    ensures Orderable(s) && TimeInv(c, EndCycle(c, s, boundary, now, closeOk, opens), now)
  {
    InvOrderable(s);
    if s.cycle.Some? && s.cycle.value.end == boundary {
      ClosedTime(c, s, now);
      var t := Close(Finalize(s));
      if closeOk {
        NextGridPoint(c.schedule, s.cycle.value.start);
        OpenTime(c, t, boundary, now, opens);
      } else {
        CloseFailedTime(c, t, now);
      }
    }
  }

  lemma CloseFailedTime(c: Config, t: State, now: int)
    requires Base(c, t, now) && t.cycle.None? && InFlightOk(t)
    ensures var u := if t.status == Stopped then t else t.(status := Degraded);
            TimeInv(c, u, now) && TimeInv(c, Arm(u, NextBoundary(c.schedule, now, false), OpenBoundary), now)
  {
    ArmOpen(c, if t.status == Stopped then t else t.(status := Degraded), now, false);
  }

  lemma BeginSlotTime(c: Config, s: State, now: int)
    requires TimeInv(c, s, now) && Idle(s) && InFlightOk(s)
    requires s.cycle.Some? ==> s.cycle.value.nextSlot < c.schedule.CycleSlots()
    ensures TimeInv(c, BeginSlot(c, s, now), now)
  {
    InvIsSpent(c, s, now);
    DegradeTime(c, s, now);
    if s.cycle.Some? { DeadlineIsOffset(c.schedule, s.cycle.value.start, s.cycle.value.nextSlot); }
  }

  lemma TickTime(c: Config, s: State, now: int, opens: set<nat>, closeOk: bool)
    requires TimeInv(c, s, now) && Inv(s)
    ensures Orderable(s) && TimeInv(c, Tick(c, s, now, opens, closeOk), now)
  {
    InvOrderable(s);
    if s.timer.Some? && s.timer.value.deadline <= now {
      var t, d := s.(timer := None), s.timer.value.deadline;
      SameKeeps(s, t);
      assert TimeInv(c, t, now) && Inv(t) && Idle(t);
      if now > d + c.drift {
        LateTimerTime(c, t, s.timer.value.kind, now);
      } else {
        match s.timer.value.kind
        case OpenBoundary => OpenTime(c, t, d, now, opens);
        case CycleBoundary => EndCycleTime(c, t, d, now, closeOk, opens);
        case SlotDeadline => BeginSlotTime(c, t, now);
      }
    }
  }

  // ----- sending

  /** Only jobs, or requests of other generations, changed. */
  ghost predicate SameTime(s: State, t: State) {
    && t.starts == s.starts && t.sends == s.sends && t.status == s.status && t.timer == s.timer
    && t.generation == s.generation && t.cycle == s.cycle
    && (t.generation in t.inflight ==>
        s.generation in s.inflight && t.inflight[s.generation].deadline == s.inflight[s.generation].deadline)
  }

  lemma SameTimeKeeps(c: Config, s: State, t: State, now: int)
    requires SameTime(s, t) && TimeInv(c, s, now)
    ensures TimeInv(c, t, now)
  {}

  lemma ProduceTime(c: Config, s: State, g: nat, p: Production, now: int)
    requires TimeInv(c, s, now) && InFlightOk(s) && g in s.inflight && s.inflight[g].stage.Producing?
    ensures TimeInv(c, Produce(c, s, g, p, now), now)
  {
    if p.Threw? || (p.Nothing? && s.inflight[g].stage.want != NextCell) {
      var t := s.(inflight := s.inflight - {g});
      SameTimeKeeps(c, s, t, now);
      InvIsSpent(c, t, now);
      DegradeTime(c, t, now);
    } else {
      SameTimeKeeps(c, s, Produce(c, s, g, p, now), now);
    }
  }

  lemma CacheUnsentTime(s: State, f: InFlight)
    requires f.stage.Ready?
    ensures SameTime(s, CacheUnsent(s, f))
  {}

  lemma AcceptTime(s: State, f: InFlight)
    requires f.stage.Ready?
    ensures SameTime(s, RecordAccepted(s, f)) && SameTime(s, AcceptSent(s, f))
  {
    var lane := LaneJob(s, f);
    if lane.Some? && Unsettled(s.runtimes, lane.value) {
      var t := s.(runtimes := s.runtimes[lane.value := AfterSent(s.runtimes[lane.value], f.stage.source)]);
      assert SameTime(s, t) && SameTime(s, Settle(t, {lane.value}, Cancelled))
          && SameTime(s, Settle(t, {lane.value}, Completed));
    }
  }

  /** The slot that is due is sent: it keeps the spacing, and so will the next one. */
  lemma SendKeepsSpacing(c: Config, starts: seq<int>, sends: seq<int>, index: nat, deadline: int)
    requires StartsOk(c, starts) && SendsOk(c, sends) && RoomFor(c, starts, sends, index)
    requires starts != [] && deadline == starts[|starts| - 1] + Offset(c.schedule, index)
    requires index < c.schedule.CycleSlots()
    ensures SendsOk(c, sends + [deadline]) && RoomFor(c, starts, sends + [deadline], index + 1)
    ensures RoomFor(c, starts, sends + [deadline], c.schedule.CycleSlots())
  {
    OffsetSteps(c.schedule, index, 1);
    RoomLater(c, starts, sends + [deadline], index + 1, c.schedule.CycleSlots());
  }

  /** The slot was served: the next one is armed, or the end of the cycle. */
  lemma NextSlotTime(c: Config, s: State, f: InFlight, now: int)
    requires Idle(s) && InFlightOk(s) && s.status == Active && s.cycle.Some? && Past(c, s, now)
    requires s.cycle.value.nextSlot < c.schedule.CycleSlots()
    requires StartsOk(c, s.starts) && SendsOk(c, s.sends) && RoomFor(c, s.starts, s.sends, s.cycle.value.nextSlot + 1)
    requires s.cycle.value.serial == f.serial
    ensures TimeInv(c, NextSlot(c, s, f), now)
  {
    var cycle := s.cycle.value.(nextSlot := s.cycle.value.nextSlot + 1);
    var t := s.(cycle := Some(cycle));
    if cycle.nextSlot < c.schedule.CycleSlots() { ArmSlotTime(c, t, now); } else { ArmEnd(c, t, now); }
  }

  lemma SentTime(c: Config, s: State, now: int, transport: Transport)
    requires TimeInv(c, s, now) && InFlightOk(s) && s.generation in s.inflight && s.inflight[s.generation].stage.Ready?
    ensures var f := s.inflight[s.generation];
            var u := s.(inflight := s.inflight - {s.generation}, sends := s.sends + [f.deadline]);
            && (transport != Accepted ==> TimeInv(c, Degrade(c, CacheUnsent(u, f), now), now))
            && (transport == Accepted ==> TimeInv(c, NextSlot(c, AcceptSent(RecordAccepted(u, f), f), f), now))
  {
    var f := s.inflight[s.generation];
    var u := s.(inflight := s.inflight - {s.generation}, sends := s.sends + [f.deadline]);
    SendKeepsSpacing(c, s.starts, s.sends, s.cycle.value.nextSlot, f.deadline);
    if transport != Accepted {
      CacheUnsentTime(u, f);
      SameFlightsOk(u, CacheUnsent(u, f));
      DegradeTime(c, CacheUnsent(u, f), now);
    } else {
      var a := RecordAccepted(u, f);
      AcceptTime(u, f);
      AcceptTime(a, f);
      RecordAcceptedFlow(u, f);
      AcceptSentFlow(a, f);
      NextSlotTime(c, AcceptSent(a, f), f, now);
    }
  }

  lemma SameFlightsOk(s: State, t: State)
    requires InFlightOk(s) && SameFlow(s, t)
    ensures InFlightOk(t)
  {}

  lemma ContinueTime(c: Config, s: State, g: nat, now: int, transport: Transport)
    requires TimeInv(c, s, now) && InFlightOk(s) && g in s.inflight && s.inflight[g].stage.Ready?
    ensures TimeInv(c, Continue(c, s, g, now, transport), now)
  {
    var f, t := s.inflight[g], s.(inflight := s.inflight - {g});
    CacheUnsentTime(t, f);
    SameTimeKeeps(c, s, t, now);
    SameTimeKeeps(c, t, CacheUnsent(t, f), now);
    if g == s.generation {
      SentTime(c, s, now, transport);
      if now > f.deadline + c.drift {
        InvIsSpent(c, CacheUnsent(t, f), now);
        DegradeTime(c, CacheUnsent(t, f), now);
      }
    }
  }

  // ----- whole runs

  lemma JobCallTime(c: Config, s: State, now: int, ev: Event)
    requires Orderable(s) && (ev.EvEnqueue? || ev.EvCancel? || ev.EvComplete?)
    ensures SameTime(s, Step(c, s, now, ev))
  {}

  lemma StepKeepsTime(c: Config, s: State, before: int, now: int, ev: Event)
    requires TimeInv(c, s, before) && Inv(s) && before <= now
    ensures Orderable(s) && TimeInv(c, Step(c, s, now, ev), now)
  {
    InvOrderable(s);
    Later(c, s, before, now);
    match ev
    case EvStart => StartTime(c, s, now);
    case EvSuspend => SuspendTime(c, s, now);
    case EvResume => ResumeTime(c, s, now);
    case EvStop => StopTime(c, s, now);
    case EvTick(opens, closeOk) => if Drained(s) { TickTime(c, s, now, opens, closeOk); }
    case EvProduce(g, p) => if g in s.inflight && s.inflight[g].stage.Producing? { ProduceTime(c, s, g, p, now); }
    case EvContinue(g, t) => if g in s.inflight && s.inflight[g].stage.Ready? { ContinueTime(c, s, g, now, t); }
    case _ =>
      JobCallTime(c, s, now, ev);
      SameTimeKeeps(c, s, Step(c, s, now, ev), now);
  }

  /** The clock never runs backwards. */
  ghost predicate Monotonic(tr: seq<Moment>) { forall i :: 0 < i < |tr| ==> tr[i - 1].now <= tr[i].now }

  ghost function LastNow(tr: seq<Moment>): int { if tr == [] then 0 else tr[|tr| - 1].now }

  lemma {:induction false} RunKeepsTime(c: Config, tr: seq<Moment>)
    requires Monotonic(tr)
    ensures TimeInv(c, Run(c, tr), LastNow(tr))
    decreases |tr|
  {
    if tr != [] {
      var rest, m := tr[..|tr| - 1], tr[|tr| - 1];
      RunKeepsTime(c, rest);
      if rest == [] { assert TimeInv(c, INITIAL, m.now); }
      StepKeepsTime(c, Run(c, rest), if rest == [] then m.now else LastNow(rest), m.now, m.event);
    }
  }

  lemma {:induction false} StepsAddUp(c: Config, sends: seq<int>, i: nat, j: nat)
    requires SendsOk(c, sends) && i < j < |sends|
    ensures sends[i] + Spacing(c.schedule) <= sends[j]
    decreases j - i
  {
    SpacingAtLeast25(c.schedule);
    if i + 1 < j { StepsAddUp(c, sends, i, j - 1); }
  }

  lemma {:induction false} CyclesAddUp(c: Config, starts: seq<int>, i: nat, j: nat)
    requires StartsOk(c, starts) && i < j < |starts|
    ensures starts[i] + c.schedule.CycleMs() <= starts[j]
    decreases j - i
  {
    PositiveProducts(c.schedule);
    if i + 1 < j { CyclesAddUp(c, starts, i, j - 1); }
  }

  /**
   With stops, suspensions, degradations and late timers in any order: cycles open only on the phase
   grid and never overlap, and the deadlines of any two sends, in one cycle or across cycles, lie at
   least the guaranteed spacing of 25 ms or more apart, in the order of the sends.
   */
  lemma SendsAndCyclesSpaced(c: Config, tr: seq<Moment>)
    requires Monotonic(tr)
    ensures var s := Run(c, tr);
            && (forall i :: 0 <= i < |s.starts| ==> OnGrid(c.schedule, s.starts[i]))
            && (forall i, j :: 0 <= i < j < |s.starts| ==> s.starts[i] + c.schedule.CycleMs() <= s.starts[j])
            && (forall i, j :: 0 <= i < j < |s.sends| ==> s.sends[i] + Spacing(c.schedule) <= s.sends[j])
            && Spacing(c.schedule) >= MIN_COVER_SLOT_MS
  {
    RunKeepsTime(c, tr);
    SpacingAtLeast25(c.schedule);
    var s := Run(c, tr);
    forall i, j | 0 <= i < j < |s.starts| ensures s.starts[i] + c.schedule.CycleMs() <= s.starts[j] {
      CyclesAddUp(c, s.starts, i, j);
    }
    forall i, j | 0 <= i < j < |s.sends| ensures s.sends[i] + Spacing(c.schedule) <= s.sends[j] {
      StepsAddUp(c, s.sends, i, j);
    }
  }
}
