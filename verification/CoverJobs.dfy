/** Job conservation: what every step of the scheduler keeps about jobs, the queue and the lanes. */
module CoverJobs {
  import opened Wrappers
  import opened CoverSlots
  import opened CoverScheduler

  /** The jobs that lanes of the open cycle carry. */
  function OnLanes(s: State): set<nat> { if s.cycle.None? then {} else s.cycle.value.carried.Values }

  /** Lanes carry distinct jobs, which were admitted. */
  ghost predicate LanesOk(rs: seq<Runtime>, carried: map<nat, nat>) {
    && (forall l :: l in carried ==> carried[l] < |rs| && rs[carried[l]].everAdmitted)
    && (forall k, l :: k in carried && l in carried && k != l ==> carried[k] != carried[l])
  }

  /** A job has reported one result if it is settled, and none otherwise. */
  ghost predicate RuntimeOk(r: Runtime) {
    && (!r.settled ==> !r.completed && !r.cancelSent)
    && |r.outcomes| == (if r.settled then 1 else 0)
  }

  ghost predicate RuntimesOk(rs: seq<Runtime>) { forall j :: 0 <= j < |rs| ==> RuntimeOk(rs[j]) }

  /** Exactly the unsettled jobs are registered, each under its own id. */
  ghost predicate Registered(rs: seq<Runtime>, jobs: map<string, nat>) {
    && (forall id :: id in jobs ==> Unsettled(rs, jobs[id]) && rs[jobs[id]].job.id == id)
    && (forall j: nat :: Unsettled(rs, j) ==> rs[j].job.id in jobs && jobs[rs[j].job.id] == j)
  }

  /** Each unsettled job is queued or on a lane, never both; only unsettled jobs are queued. */
  ghost predicate Placed(rs: seq<Runtime>, queued: set<nat>, onLanes: set<nat>) {
    && (forall j: nat :: Unsettled(rs, j) ==> j in queued || j in onLanes)
    && (forall j: nat :: j in queued ==> Unsettled(rs, j) && j !in onLanes)
  }

  ghost predicate JobsOk(s: State) {
    && RuntimesOk(s.runtimes)
    && Registered(s.runtimes, s.jobs)
    && Placed(s.runtimes, s.queued, OnLanes(s))
    && (s.cycle.Some? ==> LanesOk(s.runtimes, s.cycle.value.carried))
  }

  // ----- primitives

  /** Runtimes changed only in what job conservation does not look at. */
  ghost predicate SameRuntime(r: Runtime, q: Runtime) {
    && r.job == q.job && r.settled == q.settled && r.outcomes == q.outcomes && (r.everAdmitted ==> q.everAdmitted)
    && (!r.settled ==> r.completed == q.completed && r.cancelSent == q.cancelSent)
  }

  ghost predicate SameRuntimes(rs: seq<Runtime>, qs: seq<Runtime>) {
    |rs| == |qs| && forall j :: 0 <= j < |rs| ==> SameRuntime(rs[j], qs[j])
  }

  lemma SameKeeps(s: State, t: State)
    requires JobsOk(s) && SameRuntimes(s.runtimes, t.runtimes) && t.queued == s.queued && t.jobs == s.jobs
    requires OnLanes(s) == OnLanes(t)
    requires t.cycle.Some? ==> s.cycle.Some? && t.cycle.value.carried == s.cycle.value.carried
    ensures JobsOk(t)
  {
    assert forall j: nat :: Unsettled(t.runtimes, j) <==> Unsettled(s.runtimes, j);
  }

  lemma SettleRuntimesKeeps(rs: seq<Runtime>, js: set<nat>, o: Outcome)
    requires RuntimesOk(rs)
    ensures RuntimesOk(SettleRuntimes(rs, js, o))
    ensures forall j: nat :: Unsettled(SettleRuntimes(rs, js, o), j) <==> Unsettled(rs, j) && j !in js
  {}

  lemma SettleKeeps(s: State, js: set<nat>, o: Outcome)
    requires JobsOk(s)
    ensures JobsOk(Settle(s, js, o))
    ensures forall j: nat :: Unsettled(Settle(s, js, o).runtimes, j) <==> Unsettled(s.runtimes, j) && j !in js
  {
    var t := Settle(s, js, o);
    SettleRuntimesKeeps(s.runtimes, js, o);
    assert forall j :: 0 <= j < |s.runtimes| ==>
        t.runtimes[j].job == s.runtimes[j].job && t.runtimes[j].everAdmitted == s.runtimes[j].everAdmitted;
    assert Registered(t.runtimes, t.jobs);
  }

  lemma InterruptKeeps(s: State)
    requires JobsOk(s)
    ensures JobsOk(Interrupt(s)) && OnLanes(Interrupt(s)) == {}
  {}

  /** Lanes give up their jobs, and those still unsettled go back to the queue. */
  lemma PlacedBack(rs: seq<Runtime>, queued: set<nat>, onLanes: set<nat>, back: set<nat>)
    requires Placed(rs, queued, onLanes)
    requires forall j: nat :: j in back ==> Unsettled(rs, j)
    requires forall j: nat :: j in onLanes && Unsettled(rs, j) ==> j in back
    ensures Placed(rs, queued + back, {})
  {}

  lemma FinalizeKeeps(s: State)
    requires JobsOk(s)
    ensures JobsOk(Finalize(s)) && OnLanes(Finalize(s)) == {}
  {
    if s.cycle.Some? {
      var ending := s.cycle.value.carried.Values;
      var t := Settle(s, SpentJobs(s.runtimes, ending), Failed);
      SettleKeeps(s, SpentJobs(s.runtimes, ending), Failed);
      PlacedBack(t.runtimes, t.queued, ending, PendingCancels(s.runtimes, ending));
    }
  }

  lemma CloseKeeps(s: State)
    requires JobsOk(s) && OnLanes(s) == {}
    ensures JobsOk(Close(s)) && OnLanes(Close(s)) == {}
  {}

  // ----- cycles and timers

  /** Cycles are closed one after the other, each once; only the newest can be open. */
  ghost predicate CyclesOk(s: State) {
    && (forall i :: 0 <= i < |s.closed| ==> s.closed[i] == i)
    && s.cyclesOpened == |s.closed| + (if s.cycle.Some? then 1 else 0)
    && (s.cycle.Some? ==> s.cycle.value.serial == |s.closed|)
  }

  ghost predicate TimerOk(s: State) {
    s.timer.Some? ==>
      match s.timer.value.kind
      case OpenBoundary => s.cycle.None?
      case CycleBoundary => s.cycle.Some? && s.timer.value.deadline == s.cycle.value.end
      case SlotDeadline => s.cycle.Some? && s.status == Active
  }

  /** Requests belong to past generations, or to the current one while its slot is being served. */
  ghost predicate InFlightOk(s: State) {
    && (forall g :: g in s.inflight ==> g <= s.generation)
    && (s.generation in s.inflight ==>
          s.timer.None? && s.status == Active && s.cycle.Some?
              && s.inflight[s.generation].serial == s.cycle.value.serial)
  }

  ghost predicate ShapeOk(s: State) {
    && CyclesOk(s) && TimerOk(s) && InFlightOk(s)
    && (s.status != Active ==> OnLanes(s) == {})
  }

  ghost predicate Inv(s: State) { JobsOk(s) && ShapeOk(s) }

  // ----- selection

  /** Lanes are filled in order with distinct jobs, and what is left queued comes after all of them. */
  lemma {:induction false} SelectTakesFirst(rs: seq<Runtime>, q: set<nat>, lane: nat, lanes: nat)
    requires forall j :: j in q ==> j < |rs|
    ensures var m := Select(rs, q, lane, lanes);
            && m.Values <= q
            && (forall l :: l in m ==> lane <= l < lanes)
            && (forall k, l :: k in m && l in m && k != l ==> m[k] != m[l])
            && (forall a, b :: a in m.Values && b in q - m.Values ==> Before(rs, a, b))
    decreases lanes - lane
  {
    if lane < lanes && q != {} {
      var j := First(rs, q);
      SelectTakesFirst(rs, q - {j}, lane + 1, lanes);
      var rest, m := Select(rs, q - {j}, lane + 1, lanes), Select(rs, q, lane, lanes);
      assert m.Values == rest.Values + {j} by {
        assert m[lane] == j;
        forall v | v in rest.Values ensures v in m.Values {
          var l :| l in rest && rest[l] == v;
          assert m[l] == v;
        }
      }
    }
  }

  /** The books after the jobs in `chosen` moved from the queue to lanes. */
  lemma AdmitKeeps(rs: seq<Runtime>, jobs: map<string, nat>, queued: set<nat>, chosen: map<nat, nat>)
    requires RuntimesOk(rs) && Registered(rs, jobs) && Placed(rs, queued, {})
    requires chosen.Values <= queued && forall k, l :: k in chosen && l in chosen && k != l ==> chosen[k] != chosen[l]
    ensures var qs := Admit(rs, chosen.Values);
            && RuntimesOk(qs) && Registered(qs, jobs)
            && Placed(qs, queued - chosen.Values, chosen.Values) && LanesOk(qs, chosen)
            && (queued - chosen.Values) + RequeueJobs(qs, chosen.Values) == queued && Placed(qs, queued, {})
  {
    var qs := Admit(rs, chosen.Values);
    assert SameRuntimes(rs, qs);
    assert forall j: nat :: Unsettled(qs, j) <==> Unsettled(rs, j);
    forall l | l in chosen ensures chosen[l] < |qs| && qs[chosen[l]].everAdmitted { assert chosen[l] in chosen.Values; }
    assert RequeueJobs(qs, chosen.Values) == chosen.Values;
  }

  lemma OpenedKeepsJobs(c: Config, s: State, boundary: int, opens: set<nat>)
    requires JobsOk(s) && s.cycle.None? && Orderable(s)
    ensures JobsOk(Opened(c, s, boundary, opens))
  {
    var chosen := Select(s.runtimes, s.queued, 0, c.schedule.lanes);
    SelectTakesFirst(s.runtimes, s.queued, 0, c.schedule.lanes);
    AdmitKeeps(s.runtimes, s.jobs, s.queued, chosen);
  }

  lemma OpenedKeeps(c: Config, s: State, boundary: int, opens: set<nat>)
    requires Inv(s) && s.cycle.None? && s.timer.None? && Orderable(s)
    ensures var t := Opened(c, s, boundary, opens); Inv(t) && Idle(t)
  {
    OpenedKeepsJobs(c, s, boundary, opens);
    var t := Opened(c, s, boundary, opens);
    assert t.cycle.value.serial == s.cyclesOpened && t.timer == s.timer && t.generation == s.generation
        && t.inflight == s.inflight;
  }

  lemma OpenKeeps(c: Config, s: State, boundary: int, opens: set<nat>)
    requires Inv(s) && s.cycle.None? && s.timer.None? && Orderable(s)
    ensures Inv(OpenCycle(c, s, boundary, opens))
  {
    if s.running && s.status != Stopped && s.status != Suspended {
      var t := Opened(c, s, boundary, opens);
      OpenedKeeps(c, s, boundary, opens);
      if t.status == Active { ArmSlotKeeps(c, t); } else { ArmKeeps(t, t.cycle.value.end, CycleBoundary); }
    }
  }

  // ----- public calls

  lemma EnqueueKeeps(c: Config, s: State, job: Job)
    requires Inv(s) && Enqueue(c, s, job).Some?
    ensures Inv(Enqueue(c, s, job).value)
  {
    var t, n := Enqueue(c, s, job).value, |s.runtimes|;
    assert forall j: nat :: Unsettled(t.runtimes, j) <==> Unsettled(s.runtimes, j) || j == n;
    assert n !in OnLanes(s);
  }

  lemma ChangeRuntime(s: State, j: nat, r: Runtime)
    requires Inv(s) && j < |s.runtimes| && SameRuntime(s.runtimes[j], r)
    ensures Inv(s.(runtimes := s.runtimes[j := r]))
  {
    SameKeeps(s, s.(runtimes := s.runtimes[j := r]));
  }

  lemma SettleKeepsInv(s: State, js: set<nat>, o: Outcome)
    requires Inv(s)
    ensures Inv(Settle(s, js, o))
  {
    SettleKeeps(s, js, o);
  }

  /** A runtime that is about to be settled may already carry its final flags. */
  lemma SettleMarked(s: State, j: nat, r: Runtime, o: Outcome)
    requires Inv(s) && Unsettled(s.runtimes, j)
    requires r.job == s.runtimes[j].job && !r.settled && r.outcomes == s.runtimes[j].outcomes
    requires r.everAdmitted == s.runtimes[j].everAdmitted
    ensures Inv(Settle(s.(runtimes := s.runtimes[j := r]), {j}, o))
  {
    var t := Settle(s, {j}, o);
    var final := Settle(s.(runtimes := s.runtimes[j := r]), {j}, o);
    SettleKeepsInv(s, {j}, o);
    assert final.runtimes == t.runtimes[j := final.runtimes[j]];
    ChangeRuntime(t, j, final.runtimes[j]);
    assert final == t.(runtimes := final.runtimes);
  }

  lemma CancelKeeps(s: State, id: string)
    requires Inv(s)
    ensures Inv(Cancel(s, id).0)
  {
    if id in s.jobs {
      var j := s.jobs[id];
      SettleKeepsInv(s, {j}, CancelledBeforeAdmission);
      ChangeRuntime(s, j, s.runtimes[j].(cancelRequested := true, completed := false));
    }
  }

  lemma CompleteKeeps(s: State, id: string)
    requires Inv(s)
    ensures Inv(Complete(s, id).0)
  {
    if id in s.jobs {
      var j := s.jobs[id];
      SettleMarked(s, j, s.runtimes[j].(completed := true, pendingCell := None), Completed);
    }
  }

  /** The state between two timers: none armed, no request of the current generation. */
  ghost predicate Idle(s: State) { s.timer.None? && s.generation !in s.inflight }

  lemma DisarmKeeps(s: State, running: bool, status: Status)
    requires Inv(s) && status != Active && OnLanes(s) == {}
    ensures Inv(Disarm(s).(running := running, status := status))
    ensures Idle(Disarm(s).(running := running, status := status))
  {
    SameKeeps(s, Disarm(s).(running := running, status := status));
  }

  /** Lanes give their jobs back when a cycle stops being served. */
  lemma InterruptDisarmed(s: State, status: Status)
    requires Inv(s) && status != Active
    ensures var t := Interrupt(Disarm(s).(status := status));
            Inv(t) && Idle(t) && OnLanes(t) == {} && t == Disarm(Interrupt(s)).(status := status)
  {
    InterruptKeeps(s);
    var t := Interrupt(Disarm(s).(status := status));
    assert t == Disarm(Interrupt(s)).(status := status);
    SameKeeps(Interrupt(s), t);
  }

  lemma CloseKeepsInv(s: State)
    requires Inv(s) && OnLanes(s) == {} && Idle(s)
    ensures Inv(Close(s)) && Idle(Close(s)) && Close(s).cycle.None?
  {
    CloseKeeps(s);
  }

  lemma ArmKeeps(s: State, deadline: int, kind: TimerKind)
    requires Inv(s) && Idle(s)
    requires kind != SlotDeadline
    requires if s.cycle.Some? then kind == CycleBoundary && deadline == s.cycle.value.end else kind == OpenBoundary
    ensures Inv(Arm(s, deadline, kind))
  {
    SameKeeps(s, Arm(s, deadline, kind));
  }

  lemma AwaitEndKeeps(s: State, now: int)
    requires Inv(s) && Idle(s) && OnLanes(s) == {} && s.cycle.Some?
    ensures Inv(AwaitEnd(s, now))
  {
    CloseKeepsInv(s);
    ArmKeeps(s, s.cycle.value.end, CycleBoundary);
  }

  lemma StartKeeps(c: Config, s: State, now: int)
    requires Inv(s)
    ensures Inv(Start(c, s, now))
  {
    if s.status == Stopped {
      SameKeeps(s, Start(c, s, now));
    }
  }

  lemma SuspendKeeps(s: State, now: int)
    requires Inv(s)
    ensures Inv(Suspend(s, now))
  {
    if s.status != Stopped && s.status != Suspended {
      InterruptDisarmed(s, Suspended);
      if s.cycle.Some? { AwaitEndKeeps(Interrupt(Disarm(s).(status := Suspended)), now); }
    }
  }

  lemma ResumeKeeps(c: Config, s: State, now: int)
    requires Inv(s)
    ensures Inv(Resume(c, s, now))
  {
    if s.status == Suspended {
      var t := Disarm(s).(running := true, status := Starting);
      DisarmKeeps(s, true, Starting);
      if s.cycle.Some? && now < s.cycle.value.end {
        ArmKeeps(t, s.cycle.value.end, CycleBoundary);
      } else {
        CloseKeepsInv(t);
        ArmKeeps(Close(t), NextBoundary(c.schedule, now, false), OpenBoundary);
      }
    }
  }

  lemma StopKeeps(s: State, now: int)
    requires Inv(s)
    ensures Inv(Stop(s, now))
  {
    if s.status != Stopped || s.cycle.Some? {
      var u := Settle(s, s.jobs.Values, Failed);
      SettleKeeps(s, s.jobs.Values, Failed);
      forall j: nat ensures !Unsettled(u.runtimes, j) {
        if Unsettled(s.runtimes, j) { assert s.jobs[s.runtimes[j].job.id] in s.jobs.Values; }
      }
      var t := Settle(Disarm(s).(running := false, status := Stopped), s.jobs.Values, Failed);
      assert t == Disarm(u).(running := false, status := Stopped);
      StopSettled(u, now);
    }
  }

  lemma StopSettled(u: State, now: int)
    requires JobsOk(u) && CyclesOk(u) && InFlightOk(u) && (forall j: nat :: !Unsettled(u.runtimes, j))
    ensures var t := Disarm(u).(running := false, status := Stopped);
            Inv(if u.cycle.None? then t else AwaitEnd(t.(cycle := Some(u.cycle.value.(carried := map[]))), now))
  {
    var t := Disarm(u).(running := false, status := Stopped);
    if u.cycle.None? {
      SameKeeps(u, t);
    } else {
      var v := t.(cycle := Some(u.cycle.value.(carried := map[])));
      assert JobsOk(v);
      AwaitEndKeeps(v, now);
    }
  }

  lemma DegradeKeeps(c: Config, s: State, now: int)
    requires Inv(s)
    ensures Inv(Degrade(c, s, now))
  {
    if s.status != Stopped && s.status != Suspended {
      var t := Interrupt(Disarm(s).(status := Degraded));
      InterruptDisarmed(s, Degraded);
      if s.cycle.Some? && now <= s.cycle.value.end {
        AwaitEndKeeps(t, now);
      } else {
        CloseKeepsInv(t);
        if s.running { ArmKeeps(Close(t), NextBoundary(c.schedule, now, false), OpenBoundary); }
      }
    }
  }

  /** The open cycle is given up at once: jobs go back to the queue and the lanes close. */
  lemma GiveUpKeeps(s: State)
    requires Inv(s) && Idle(s)
    ensures var t := Close(Interrupt(s)); JobsOk(t) && CyclesOk(t) && InFlightOk(t) && Idle(t) && t.cycle.None?
  {
    InterruptKeeps(s);
    CloseKeeps(Interrupt(s));
  }

  lemma LateTimerKeeps(c: Config, s: State, kind: TimerKind, now: int)
    requires Inv(s) && Idle(s)
    ensures Inv(LateTimer(c, s, kind, now))
  {
    if kind == SlotDeadline {
      DegradeKeeps(c, s, now);
    } else {
      GiveUpKeeps(s);
      var t := Close(Interrupt(s));
      assert LateTimer(c, s, kind, now) == t.(status := if s.status == Stopped then t.status else Suspended);
      SameKeeps(t, LateTimer(c, s, kind, now));
    }
  }

  lemma EndCycleKeeps(c: Config, s: State, boundary: int, now: int, closeOk: bool, opens: set<nat>)
    requires Inv(s) && Idle(s) && Orderable(s)
    ensures Inv(EndCycle(c, s, boundary, now, closeOk, opens))
  {
    if s.cycle.Some? && s.cycle.value.end == boundary {
      FinalizeKeeps(s);
      var t := Close(Finalize(s));
      CloseKeepsInv(Finalize(s));
      if closeOk {
        OpenKeeps(c, t, boundary, opens);
      } else {
        var u := if s.status == Stopped then t else t.(status := Degraded);
        SameKeeps(t, u);
        if s.running { ArmKeeps(u, NextBoundary(c.schedule, now, false), OpenBoundary); }
      }
    }
  }

  lemma BeginSlotKeeps(c: Config, s: State, now: int)
    requires Inv(s) && Idle(s)
    ensures Inv(BeginSlot(c, s, now))
  {
    if s.cycle.Some? && s.status == Active {
      DegradeKeeps(c, s, now);
      var t := BeginSlot(c, s, now);
      if SlotAt(c.schedule, s.cycle.value.start, s.cycle.value.nextSlot).lane in s.cycle.value.lanes {
        SameKeeps(s, t);
      }
    }
  }

  lemma TickKeeps(c: Config, s: State, now: int, opens: set<nat>, closeOk: bool)
    requires Inv(s) && Orderable(s)
    ensures Inv(Tick(c, s, now, opens, closeOk))
  {
    if s.timer.Some? && s.timer.value.deadline <= now {
      var t := s.(timer := None);
      SameKeeps(s, t);
      if now > s.timer.value.deadline + c.drift {
        LateTimerKeeps(c, t, s.timer.value.kind, now);
      } else {
        match s.timer.value.kind
        case OpenBoundary => OpenKeeps(c, t, s.timer.value.deadline, opens);
        case CycleBoundary => EndCycleKeeps(c, t, s.timer.value.deadline, now, closeOk, opens);
        case SlotDeadline => BeginSlotKeeps(c, t, now);
      }
    }
  }

  // ----- production and sending

  /** Requests other than one of the current generation may come and go. */
  lemma DropInFlight(s: State, g: nat)
    requires Inv(s)
    ensures Inv(s.(inflight := s.inflight - {g}))
  {
    SameKeeps(s, s.(inflight := s.inflight - {g}));
  }

  lemma ChangeInFlight(s: State, g: nat, f: InFlight)
    requires Inv(s) && g in s.inflight && s.inflight[g].serial == f.serial
    ensures Inv(s.(inflight := s.inflight[g := f]))
  {
    SameKeeps(s, s.(inflight := s.inflight[g := f]));
  }

  lemma ProduceKeeps(c: Config, s: State, g: nat, p: Production, now: int)
    requires Inv(s) && g in s.inflight && s.inflight[g].stage.Producing?
    ensures Inv(Produce(c, s, g, p, now))
  {
    var f := s.inflight[g];
    var want := f.stage.want;
    if p.Cell? {
      var t := s.(inflight := s.inflight[g := f.(stage := Ready(want, p.cell))]);
      ChangeInFlight(s, g, f.(stage := Ready(want, p.cell)));
      if want == NextCell && f.job.Some? && f.job.value < |s.runtimes| {
        var r := s.runtimes[f.job.value];
        ChangeRuntime(t, f.job.value, r.(produced := r.produced + [p.cell]));
      }
    } else if p.Nothing? && want == NextCell {
      ChangeInFlight(s, g, f.(stage := Producing(DummyCell)));
    } else {
      DropInFlight(s, g);
      DegradeKeeps(c, s.(inflight := s.inflight - {g}), now);
    }
  }

  lemma CacheUnsentKeeps(s: State, f: InFlight)
    requires Inv(s) && f.stage.Ready?
    ensures Inv(CacheUnsent(s, f))
  {
    var target := CacheTarget(s, f);
    if target.Some? && Unsettled(s.runtimes, target.value) {
      ChangeRuntime(s, target.value, WithUnsent(s.runtimes[target.value], f.stage));
    }
  }

  lemma AcceptSentKeeps(s: State, f: InFlight)
    requires Inv(s) && f.stage.Ready?
    ensures Inv(AcceptSent(s, f))
  {
    var lane := LaneJob(s, f);
    if lane.Some? && Unsettled(s.runtimes, lane.value) {
      var j := lane.value;
      var r, q := s.runtimes[j], AfterSent(s.runtimes[j], f.stage.source);
      if f.stage.source == CancelCell {
        SettleMarked(s, j, q, Cancelled);
      } else if f.stage.source == NextCell && r.sentCells + 1 == r.job.declared {
        SettleMarked(s, j, q, Completed);
      } else {
        assert RuntimeOk(r);
        ChangeRuntime(s, j, q);
      }
    }
  }

  lemma RecordAcceptedKeeps(s: State, f: InFlight)
    requires Inv(s) && f.stage.Ready?
    ensures Inv(RecordAccepted(s, f))
  {
    if f.job.Some? && f.job.value < |s.runtimes| {
      var r := s.runtimes[f.job.value];
      ChangeRuntime(s, f.job.value, r.(accepted := r.accepted + [f.stage.cell]));
    }
  }

  lemma ArmSlotKeeps(c: Config, s: State)
    requires Inv(s) && Idle(s) && s.status == Active && s.cycle.Some?
    ensures Inv(ArmSlot(c, s))
  {
    SameKeeps(s, ArmSlot(c, s));
  }

  lemma AdvanceKeeps(s: State)
    requires Inv(s) && Idle(s) && s.cycle.Some?
    ensures Inv(s.(cycle := Some(s.cycle.value.(nextSlot := s.cycle.value.nextSlot + 1))))
  {
    SameKeeps(s, s.(cycle := Some(s.cycle.value.(nextSlot := s.cycle.value.nextSlot + 1))));
  }

  lemma NextSlotKeeps(c: Config, s: State, f: InFlight)
    requires Inv(s) && Idle(s) && s.status == Active
    ensures Inv(NextSlot(c, s, f))
  {
    if s.cycle.Some? {
      var t := s.(cycle := Some(s.cycle.value.(nextSlot := s.cycle.value.nextSlot + 1)));
      AdvanceKeeps(s);
      ArmSlotKeeps(c, t);
      ArmKeeps(t, s.cycle.value.end, CycleBoundary);
    }
  }

  /** Accepting a cell touches neither timers nor the cycle. */
  ghost predicate SameFlow(s: State, t: State) {
    t.timer == s.timer && t.status == s.status && t.generation == s.generation && t.inflight == s.inflight
        && t.cycle == s.cycle
  }

  lemma AcceptSentFlow(s: State, f: InFlight)
    requires f.stage.Ready?
    ensures SameFlow(s, AcceptSent(s, f))
  {
    var lane := LaneJob(s, f);
    if lane.Some? && Unsettled(s.runtimes, lane.value) {
      var t := s.(runtimes := s.runtimes[lane.value := AfterSent(s.runtimes[lane.value], f.stage.source)]);
      assert SameFlow(s, t) && SameFlow(t, Settle(t, {lane.value}, Cancelled))
          && SameFlow(t, Settle(t, {lane.value}, Completed));
    }
  }

  lemma RecordAcceptedFlow(s: State, f: InFlight)
    requires f.stage.Ready?
    ensures SameFlow(s, RecordAccepted(s, f))
  {}

  lemma ContinueKeeps(c: Config, s: State, g: nat, now: int, transport: Transport)
    requires Inv(s) && g in s.inflight && s.inflight[g].stage.Ready?
    ensures Inv(Continue(c, s, g, now, transport))
  {
    var f, t := s.inflight[g], s.(inflight := s.inflight - {g});
    DropInFlight(s, g);
    CacheUnsentKeeps(t, f);
    if g == s.generation {
      DegradeKeeps(c, CacheUnsent(t, f), now);
      var u := t.(sends := t.sends + [f.deadline]);
      SameKeeps(t, u);
      SentKeeps(c, u, f, now, transport);
    }
  }

  lemma SentKeeps(c: Config, u: State, f: InFlight, now: int, transport: Transport)
    requires Inv(u) && Idle(u) && u.status == Active && f.stage.Ready?
    ensures transport != Accepted ==> Inv(Degrade(c, CacheUnsent(u, f), now))
    ensures transport == Accepted ==> Inv(NextSlot(c, AcceptSent(RecordAccepted(u, f), f), f))
  {
    if transport != Accepted {
      CacheUnsentKeeps(u, f);
      DegradeKeeps(c, CacheUnsent(u, f), now);
    } else {
      RecordAcceptedKeeps(u, f);
      AcceptSentKeeps(RecordAccepted(u, f), f);
      RecordAcceptedFlow(u, f);
      AcceptSentFlow(RecordAccepted(u, f), f);
      NextSlotKeeps(c, AcceptSent(RecordAccepted(u, f), f), f);
    }
  }

  // ----- whole runs

  lemma InvOrderable(s: State)
    requires Inv(s)
    ensures Orderable(s)
  {}

  lemma StepKeepsInv(c: Config, s: State, now: int, ev: Event)
    requires Inv(s)
    ensures Orderable(s) && Inv(Step(c, s, now, ev))
  {
    InvOrderable(s);
    match ev
    case EvEnqueue(job) => if Enqueue(c, s, job).Some? { EnqueueKeeps(c, s, job); }
    case EvCancel(id) => CancelKeeps(s, id);
    case EvComplete(id) => CompleteKeeps(s, id);
    case EvStart => StartKeeps(c, s, now);
    case EvSuspend => SuspendKeeps(s, now);
    case EvResume => ResumeKeeps(c, s, now);
    case EvStop => StopKeeps(s, now);
    case EvTick(opens, closeOk) => if Drained(s) { TickKeeps(c, s, now, opens, closeOk); }
    case EvProduce(g, p) => if g in s.inflight && s.inflight[g].stage.Producing? { ProduceKeeps(c, s, g, p, now); }
    case EvContinue(g, t) => if g in s.inflight && s.inflight[g].stage.Ready? { ContinueKeeps(c, s, g, now, t); }
  }

  datatype Moment = At(now: int, event: Event)

  /** The scheduler after a run of events; what every run keeps is part of the result. */
  ghost function Run(c: Config, tr: seq<Moment>): (s: State)
    ensures Inv(s)
  {
    if tr == [] then INITIAL
    else
      var s, m := Run(c, tr[..|tr| - 1]), tr[|tr| - 1];
      StepKeepsInv(c, s, m.now, m.event);
      Step(c, s, m.now, m.event)
  }

  /** The lane carries the job, and no other lane does. */
  ghost predicate OnlyLane(carried: map<nat, nat>, l: nat, j: nat) {
    l in carried && carried[l] == j && forall k :: k in carried && carried[k] == j ==> k == l
  }

  /**
   Each unsettled job is queued or on exactly one lane, never both; a settled job is not queued and
   has reported exactly one result. Cycles close in the order they opened, each once, and while one
   is open all earlier ones are closed.
   */
  lemma JobsConserved(c: Config, tr: seq<Moment>, j: nat)
    requires j < |Run(c, tr).runtimes|
    ensures var s := Run(c, tr);
            && (Unsettled(s.runtimes, j) ==>
                (j in s.queued) != (s.cycle.Some? && exists l :: OnlyLane(s.cycle.value.carried, l, j)))
            && (j in s.queued ==> Unsettled(s.runtimes, j))
            && |s.runtimes[j].outcomes| == (if s.runtimes[j].settled then 1 else 0)
            && s.closed == seq(|s.closed|, i => i)
            && s.cyclesOpened == |s.closed| + (if s.cycle.Some? then 1 else 0)
            && (s.cycle.Some? ==> s.cycle.value.serial == |s.closed|)
  {
    var s := Run(c, tr);
    if Unsettled(s.runtimes, j) && j in OnLanes(s) {
      var l :| l in s.cycle.value.carried && s.cycle.value.carried[l] == j;
      assert OnlyLane(s.cycle.value.carried, l, j);
    }
  }
}
