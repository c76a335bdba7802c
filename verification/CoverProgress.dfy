/**
 Progress of the scheduler: whatever happened before, every unsettled job can still be finished, by starting
 or resuming the scheduler and serving cycle after cycle.
 */
module CoverProgress {
  import opened Wrappers
  import opened Seqs
  import opened CoverSlots
  import opened CoverScheduler
  import opened CoverJobs
  import opened CoverCells
  import opened CoverTime
  import opened CoverOverlap
  import opened CoverOrder
  import opened CoverService

  // ----- jobs fit their lanes, in every run

  /** A job's cells fit the slots of a lane, and an unsettled job has some left. */
  ghost predicate Fitting(c: Config, rs: seq<Runtime>) {
    forall j :: 0 <= j < |rs| ==>
      rs[j].job.declared <= c.schedule.SlotsPerLane() && (!rs[j].settled ==> rs[j].sentCells < rs[j].job.declared)
  }

  lemma QuietFits(c: Config, s: State, t: State)
    requires Fitting(c, s.runtimes) && Quiet(s, t)
    ensures Fitting(c, t.runtimes)
  {
    assert forall j :: 0 <= j < |s.runtimes| ==> QuietRuntime(s.runtimes[j], t.runtimes[j]);
  }

  lemma TickFits(c: Config, s: State, now: int, opens: set<nat>, closeOk: bool)
    requires Inv(s) && Orderable(s) && Fitting(c, s.runtimes)
    ensures Fitting(c, Tick(c, s, now, opens, closeOk).runtimes)
  {
    if s.timer.Some? && s.timer.value.deadline <= now {
      var t, d := s.(timer := None), s.timer.value.deadline;
      SameKeeps(s, t);
      assert Inv(t) && Idle(t);
      QuietFits(c, t, t);
      if now > d + c.drift {
        QuietLateTimer(c, t, s.timer.value.kind, now);
        QuietFits(c, t, LateTimer(c, t, s.timer.value.kind, now));
      } else {
        DueFits(c, t, d, s.timer.value.kind, now, opens, closeOk);
      }
    }
  }

  lemma DueFits(c: Config, t: State, d: int, kind: TimerKind, now: int, opens: set<nat>, closeOk: bool)
    requires Inv(t) && Idle(t) && Orderable(t) && Fitting(c, t.runtimes)
    ensures kind == OpenBoundary ==> Fitting(c, OpenCycle(c, t, d, opens).runtimes)
    ensures kind == CycleBoundary ==> Fitting(c, EndCycle(c, t, d, now, closeOk, opens).runtimes)
    ensures kind == SlotDeadline ==> Fitting(c, BeginSlot(c, t, now).runtimes)
  {
    match kind
    case OpenBoundary =>
      QuietOpen(c, t, d, opens);
      QuietFits(c, t, OpenCycle(c, t, d, opens));
    case CycleBoundary =>
      QuietEndCycle(c, t, d, now, closeOk, opens);
      QuietFits(c, t, EndCycle(c, t, d, now, closeOk, opens));
    case SlotDeadline =>
      QuietDegrade(c, t, now);
      QuietFits(c, t, Degrade(c, t, now));
  }

  lemma DegradeFits(c: Config, s: State, now: int)
    requires Fitting(c, s.runtimes)
    ensures Fitting(c, Degrade(c, s, now).runtimes)
  {
    QuietDegrade(c, s, now);
    QuietFits(c, s, Degrade(c, s, now));
  }

  lemma ProduceFits(c: Config, s: State, g: nat, p: Production, now: int)
    requires Fitting(c, s.runtimes) && g in s.inflight && s.inflight[g].stage.Producing?
    ensures Fitting(c, Produce(c, s, g, p, now).runtimes)
  {
    DegradeFits(c, s.(inflight := s.inflight - {g}), now);
  }

  lemma CacheFits(c: Config, s: State, f: InFlight)
    requires Fitting(c, s.runtimes) && f.stage.Ready?
    ensures Fitting(c, CacheUnsent(s, f).runtimes)
  {}

  lemma AcceptFits(c: Config, s: State, f: InFlight)
    requires Fitting(c, s.runtimes) && f.stage.Ready?
    ensures Fitting(c, AcceptSent(RecordAccepted(s, f), f).runtimes)
  {
    var a := RecordAccepted(s, f);
    assert Fitting(c, a.runtimes);
    var lane := LaneJob(a, f);
    if lane.Some? && Unsettled(a.runtimes, lane.value) {
      var b := a.(runtimes := a.runtimes[lane.value := AfterSent(a.runtimes[lane.value], f.stage.source)]);
      SettleOne(b, lane.value, Cancelled);
      SettleOne(b, lane.value, Completed);
    }
  }

  lemma ContinueFits(c: Config, s: State, g: nat, now: int, transport: Transport)
    requires Fitting(c, s.runtimes) && g in s.inflight && s.inflight[g].stage.Ready?
    ensures Fitting(c, Continue(c, s, g, now, transport).runtimes)
  {
    var f, t := s.inflight[g], s.(inflight := s.inflight - {g});
    var u := t.(sends := t.sends + [f.deadline]);
    CacheFits(c, t, f);
    CacheFits(c, u, f);
    DegradeFits(c, CacheUnsent(t, f), now);
    DegradeFits(c, CacheUnsent(u, f), now);
    AcceptFits(c, u, f);
    var v := AcceptSent(RecordAccepted(u, f), f);
    assert NextSlot(c, v, f).runtimes == v.runtimes;
  }

  lemma StepFits(c: Config, s: State, now: int, ev: Event)
    requires Inv(s) && Orderable(s) && Fitting(c, s.runtimes)
    ensures Fitting(c, Step(c, s, now, ev).runtimes)
  {
    match ev
    case EvEnqueue(job) =>
    case EvTick(opens, closeOk) => if Drained(s) { TickFits(c, s, now, opens, closeOk); }
    case EvProduce(g, p) => if g in s.inflight && s.inflight[g].stage.Producing? { ProduceFits(c, s, g, p, now); }
    case EvContinue(g, t) => if g in s.inflight && s.inflight[g].stage.Ready? { ContinueFits(c, s, g, now, t); }
    case _ =>
      QuietCall(c, s, now, ev);
      QuietFits(c, s, Step(c, s, now, ev));
  }

  lemma {:induction false} RunFits(c: Config, tr: seq<Moment>)
    ensures Fitting(c, Run(c, tr).runtimes)
    decreases |tr|
  {
    if tr != [] {
      RunFits(c, tr[..|tr| - 1]);
      InvOrderable(Run(c, tr[..|tr| - 1]));
      StepFits(c, Run(c, tr[..|tr| - 1]), tr[|tr| - 1].now, tr[|tr| - 1].event);
    }
  }

  // ----- counting jobs

  lemma {:induction false} LanesCount(n: nat)
    ensures |LanesBelow(n)| == n
  {
    if n > 0 { LanesCount(n - 1); }
  }

  lemma {:induction false} InjectiveCount(m: map<nat, nat>)
    requires forall k, l :: k in m && l in m && k != l ==> m[k] != m[l]
    ensures |m.Values| == |m.Keys|
    decreases |m.Keys|
  {
    if m.Keys == {} {
      assert m.Values == {};
    } else {
      var k :| k in m.Keys;
      var rest := m - {k};
      assert rest.Keys == m.Keys - {k};
      InjectiveCount(rest);
      assert m.Values == rest.Values + {m[k]} by {
        forall v | v in m.Values ensures v in rest.Values + {m[k]} {
          var l :| l in m && m[l] == v;
          if l != k { assert rest[l] == v; }
        }
      }
      assert m[k] !in rest.Values;
    }
  }

  /** The queued jobs that go before job `j`. */
  ghost function AheadOf(s: State, j: nat): set<nat>
    requires Orderable(s) && j < |s.runtimes|
  {
    set k | k in s.queued && k != j && GoesFirst(s.runtimes, k, j)
  }

  lemma TakenCount(q: set<nat>, m: map<nat, nat>, lanes: nat)
    requires forall k, l :: k in m && l in m && k != l ==> m[k] != m[l]
    requires forall l: nat :: l in m <==> l < lanes && l < |q|
    ensures |m.Values| == if lanes < |q| then lanes else |q|
  {
    var n := if lanes < |q| then lanes else |q|;
    InjectiveCount(m);
    assert m.Keys == LanesBelow(n);
    LanesCount(n);
  }

  lemma TakenAreAhead(s: State, m: map<nat, nat>, j: nat)
    requires Orderable(s) && j in s.queued && j !in m.Values && m.Values <= s.queued
    requires TakesFirst(s.runtimes, m, s.queued - m.Values)
    ensures m.Values <= AheadOf(s, j)
  {
    forall v | v in m.Values ensures v in AheadOf(s, j) {
      var l :| l in m && m[l] == v;
      assert j in s.queued - m.Values && GoesFirst(s.runtimes, m[l], j);
    }
  }

  lemma FewAheadIsTaken(s: State, m: map<nat, nat>, lanes: nat, j: nat)
    requires Orderable(s) && j in s.queued && |AheadOf(s, j)| < lanes
    requires m.Values <= s.queued && forall k, l :: k in m && l in m && k != l ==> m[k] != m[l]
    requires TakesFirst(s.runtimes, m, s.queued - m.Values) && forall l: nat :: l in m <==> l < lanes && l < |s.queued|
    ensures j in m.Values
  {
    if j !in m.Values {
      TakenCount(s.queued, m, lanes);
      TakenAreAhead(s, m, j);
      SubsetSize(m.Values, AheadOf(s, j));
      SubsetSize(AheadOf(s, j) + {j}, s.queued);
    }
  }

  // ----- from one cycle to the next

  lemma OpenIs(c: Config, s: State, b: int, opens: set<nat>)
    requires Orderable(s) && s.running && s.status != Stopped && s.status != Suspended
    requires LanesBelow(c.schedule.lanes) <= opens
    ensures var m, t := Select(s.runtimes, s.queued, 0, c.schedule.lanes), OpenCycle(c, s, b, opens);
            && t.status == Active && t.generation == s.generation + 1 && t.inflight == s.inflight
            && t.runtimes == Admit(s.runtimes, m.Values) && t.queued == s.queued - m.Values
            && t.timer == Some(Timer(SlotAt(c.schedule, b, 0).deadline, SlotDeadline))
            && t.cycle.Some? && t.cycle.value.start == b && t.cycle.value.nextSlot == 0
            && t.cycle.value.end == b + c.schedule.CycleMs() && t.running
            && t.cycle.value.carried == m && LanesBelow(c.schedule.lanes) <= t.cycle.value.lanes
  {}

  lemma TakenWait(c: Config, s: State)
    requires Inv(s) && Orderable(s) && Fitting(c, s.runtimes)
    ensures var m := Select(s.runtimes, s.queued, 0, c.schedule.lanes);
            forall l :: l in m ==>
              l < c.schedule.lanes && m[l] < |s.runtimes| && Waiting(Admit(s.runtimes, m.Values)[m[l]])
  {
    var m := Select(s.runtimes, s.queued, 0, c.schedule.lanes);
    SelectTakesFirst(s.runtimes, s.queued, 0, c.schedule.lanes);
    forall l | l in m
      ensures l < c.schedule.lanes && m[l] < |s.runtimes| && Waiting(Admit(s.runtimes, m.Values)[m[l]])
    {
      assert m[l] in m.Values && m[l] in s.queued && Unsettled(s.runtimes, m[l]);
      assert RuntimeOk(s.runtimes[m[l]]);
    }
  }

  /** The next timer opens a cycle: a boundary without an open cycle, or the end of one that is done. */
  ghost predicate Opening(c: Config, s: State) {
    && Inv(s) && Orderable(s) && Drained(s) && Fitting(c, s.runtimes)
    && s.running && s.status != Stopped && s.status != Suspended && s.timer.Some?
    && (s.timer.value.kind == OpenBoundary ||
        (s.timer.value.kind == CycleBoundary && s.cycle.Some? && s.timer.value.deadline == s.cycle.value.end
         && forall l :: l in s.cycle.value.carried ==> s.runtimes[s.cycle.value.carried[l]].settled))
  }

  /** A cycle whose jobs are all settled ends without changing a job. */
  lemma EndsDone(s: State)
    requires s.cycle.Some?
    requires forall l :: l in s.cycle.value.carried ==> !Unsettled(s.runtimes, s.cycle.value.carried[l])
    ensures Close(Finalize(s)) == s.(cycle := None, closed := s.closed + [s.cycle.value.serial])
  {
    var ending := s.cycle.value.carried.Values;
    assert SpentJobs(s.runtimes, ending) == {} && PendingCancels(s.runtimes, ending) == {};
    assert SettleRuntimes(s.runtimes, {}, Failed) == s.runtimes;
    assert Settle(s, {}, Failed).jobs == s.jobs;
  }

  lemma TickEndsCycle(c: Config, s: State, now: int, opens: set<nat>)
    requires Drained(s) && Orderable(s.(timer := None)) && s.timer == Some(Timer(now, CycleBoundary))
    ensures Next(c, s, At(now, EvTick(opens, true))) == EndCycle(c, s.(timer := None), now, now, true, opens)
  {}

  lemma EndsAndOpens(c: Config, s: State, now: int, opens: set<nat>)
    requires Orderable(s) && s.cycle.Some? && s.cycle.value.end == now
    ensures Orderable(Close(Finalize(s)))
    ensures EndCycle(c, s, now, now, true, opens) == OpenCycle(c, Close(Finalize(s)), now, opens)
  {}

  lemma TickOpensCycle(c: Config, s: State, now: int, opens: set<nat>)
    requires Drained(s) && Orderable(s.(timer := None)) && s.timer == Some(Timer(now, OpenBoundary))
    ensures Next(c, s, At(now, EvTick(opens, true))) == OpenCycle(c, s.(timer := None), now, opens)
  {}

  /** The boundary timer of a cycle whose jobs are settled, which leaves `u`, opens the next one. */
  lemma BoundaryOpens(c: Config, s: State, u: State, now: int, opens: set<nat>)
    requires Drained(s) && Orderable(s.(timer := None)) && s.timer == Some(Timer(now, CycleBoundary))
    requires s.cycle.Some? && s.cycle.value.end == now
    requires forall l :: l in s.cycle.value.carried ==> !Unsettled(s.runtimes, s.cycle.value.carried[l])
    requires u == s.(timer := None, cycle := None, closed := s.closed + [s.cycle.value.serial])
    ensures Orderable(u) && Next(c, s, At(now, EvTick(opens, true))) == OpenCycle(c, u, now, opens)
  {
    TickEndsCycle(c, s, now, opens);
    EndsAndOpens(c, s.(timer := None), now, opens);
    EndsDone(s.(timer := None));
  }

  lemma TickOpens(c: Config, s: State, opens: set<nat>) returns (u: State)
    requires Opening(c, s)
    ensures Orderable(u) && Next(c, s, At(Clock(s), EvTick(opens, true))) == OpenCycle(c, u, Clock(s), opens)
    ensures u.runtimes == s.runtimes && u.queued == s.queued && u.inflight == s.inflight
    ensures u.generation == s.generation && u.running && u.status == s.status
  {
    if s.timer.value.kind == OpenBoundary {
      u := s.(timer := None);
      TickOpensCycle(c, s, Clock(s), opens);
    } else {
      u := s.(timer := None, cycle := None, closed := s.closed + [s.cycle.value.serial]);
      BoundaryOpens(c, s, u, Clock(s), opens);
    }
  }

  lemma FirstTimer(c: Config, start: int)
    ensures start <= SlotAt(c.schedule, start, 0).deadline
  {
    PositiveProducts(c.schedule);
    DeadlinesSpaced(c.schedule, start, 0);
  }

  /** The timer opens a fresh cycle with the first jobs of the queue. */
  lemma OpensFresh(c: Config, s: State, opens: set<nat>) returns (t: State)
    requires Opening(c, s) && LanesBelow(c.schedule.lanes) <= opens
    ensures t == Next(c, s, At(Clock(s), EvTick(opens, true))) && Fresh(c, t) && t.running && t.inflight == s.inflight
    ensures t.cycle.value.start == Clock(s) <= Clock(t)
    ensures var m := Select(s.runtimes, s.queued, 0, c.schedule.lanes);
            && t.cycle.value.carried == m && t.runtimes == Admit(s.runtimes, m.Values)
            && t.queued == s.queued - m.Values
  {
    var u := TickOpens(c, s, opens);
    OpenIs(c, u, Clock(s), opens);
    t := OpenCycle(c, u, Clock(s), opens);
    SelectTakesFirst(s.runtimes, s.queued, 0, c.schedule.lanes);
    TakenWait(c, s);
    PositiveProducts(c.schedule);
    FirstTimer(c, Clock(s));
  }

  lemma {:induction false} AfterKeeps(c: Config, s: State, ms: seq<Moment>)
    requires Inv(s) && Fitting(c, s.runtimes)
    ensures Inv(After(c, s, ms)) && Fitting(c, After(c, s, ms).runtimes)
    decreases |ms|
  {
    if ms != [] {
      var rest, m := ms[..|ms| - 1], ms[|ms| - 1];
      AfterKeeps(c, s, rest);
      NextKeeps(c, After(c, s, rest), m);
    }
  }

  lemma NextKeeps(c: Config, s: State, m: Moment)
    requires Inv(s) && Fitting(c, s.runtimes)
    ensures Inv(Next(c, s, m)) && Fitting(c, Next(c, s, m).runtimes)
  {
    InvOrderable(s);
    StepKeepsInv(c, s, m.now, m.event);
    StepFits(c, s, m.now, m.event);
  }

  /** What one cycle does to the jobs that were queued: it finishes them, or leaves them queued as they are. */
  ghost predicate CycleDone(s: State, u: State) {
    && |u.runtimes| == |s.runtimes| && u.queued < s.queued
    && forall j: nat :: j in s.queued && j < |s.runtimes| ==>
         Finished(s.runtimes[j], u.runtimes[j]) || (j in u.queued && u.runtimes[j] == s.runtimes[j])
  }

  lemma JobDone(c: Config, s: State, t: State, u: State, m: map<nat, nat>, j: nat)
    requires t.cycle.Some? && t.cycle.value.carried == m && t.runtimes == Admit(s.runtimes, m.Values)
    requires AllFinished(t, u) && Inv(s) && Inv(u) && j in s.queued && j < |s.runtimes|
    ensures if j in m.Values then Finished(s.runtimes[j], u.runtimes[j])
            else j in u.queued && u.runtimes[j] == s.runtimes[j]
  {
    assert Unsettled(s.runtimes, j);
    if j in m.Values {
      var l :| l in m && m[l] == j;
      assert Finished(t.runtimes[m[l]], u.runtimes[m[l]]);
    } else {
      assert Unsettled(u.runtimes, j);
    }
  }

  lemma OpeningAgain(c: Config, t: State, u: State)
    requires Fresh(c, t) && t.running && Drained(t) && AllFinished(t, u) && Inv(u) && Fitting(c, u.runtimes)
    ensures Opening(c, u)
  {
    InvOrderable(u);
    forall l | l in u.cycle.value.carried ensures u.runtimes[u.cycle.value.carried[l]].settled {
      var j := t.cycle.value.carried[l];
      assert Finished(t.runtimes[j], u.runtimes[j]);
    }
  }

  lemma TakenFit(c: Config, s: State, t: State)
    requires Fresh(c, t) && Fitting(c, s.runtimes)
    requires t.runtimes == Admit(s.runtimes, t.cycle.value.carried.Values)
    ensures AllFit(c, t)
  {}

  /** A whole cycle: opened by the timer, and served to its end. */
  lemma OneCycle(c: Config, s: State, opens: set<nat>, x: Cell) returns (ms: seq<Moment>, t: State, u: State)
    requires Opening(c, s) && LanesBelow(c.schedule.lanes) <= opens
    ensures Leads(c, s, ms, u) && Opening(c, u) && AllFinished(t, u)
    ensures var m := Select(s.runtimes, s.queued, 0, c.schedule.lanes);
            && t.cycle.Some? && t.cycle.value.carried == m && t.runtimes == Admit(s.runtimes, m.Values)
            && u.queued <= s.queued - m.Values
  {
    var tick := At(Clock(s), EvTick(opens, true));
    t := OpensFresh(c, s, opens);
    TakenFit(c, s, t);
    var rest;
    rest, u := CycleFinishes(c, t, x);
    TickLeads(c, s, tick, t);
    LeadsOn(c, s, [tick], t, rest, u);
    ms := [tick] + rest;
    AfterKeeps(c, s, ms);
    OpeningAgain(c, t, u);
  }

  lemma TickLeads(c: Config, s: State, m: Moment, t: State)
    requires t == Next(c, s, m) && m.now == Clock(s) <= Clock(t)
    ensures Leads(c, s, [m], t)
  {
    AfterOne(c, s, [], m);
    assert [] + [m] == [m];
    LeadsAt(c, s, [m], t, m.now);
  }

  lemma DoneOf(c: Config, s: State, t: State, u: State, m: map<nat, nat>)
    requires t.cycle.Some? && t.cycle.value.carried == m && t.runtimes == Admit(s.runtimes, m.Values)
    requires AllFinished(t, u) && Inv(s) && Inv(u)
    requires m.Values <= s.queued && m.Values != {} && u.queued <= s.queued - m.Values
    ensures CycleDone(s, u)
    ensures forall j: nat :: j in m.Values ==> j < |s.runtimes| && Finished(s.runtimes[j], u.runtimes[j])
  {
    InvOrderable(s);
    var v :| v in m.Values;
    assert v in s.queued && v !in u.queued;
    forall j: nat | j in s.queued && j < |s.runtimes|
      ensures if j in m.Values then Finished(s.runtimes[j], u.runtimes[j])
              else j in u.queued && u.runtimes[j] == s.runtimes[j]
    {
      JobDone(c, s, t, u, m, j);
    }
  }

  /** The jobs that the next cycle takes. */
  lemma NextTaken(c: Config, s: State) returns (m: map<nat, nat>)
    requires Orderable(s)
    ensures m == Select(s.runtimes, s.queued, 0, c.schedule.lanes) && m.Values <= s.queued
    ensures s.queued != {} ==> m.Values != {}
    ensures forall j :: j in s.queued && |AheadOf(s, j)| < c.schedule.lanes ==> j in m.Values
  {
    m := Select(s.runtimes, s.queued, 0, c.schedule.lanes);
    SelectTakesFirst(s.runtimes, s.queued, 0, c.schedule.lanes);
    SelectByFields(s.runtimes, s.queued, c.schedule.lanes);
    if s.queued != {} {
      assert 0 in m;
      assert m[0] in m.Values;
    }
    forall j | j in s.queued && |AheadOf(s, j)| < c.schedule.lanes ensures j in m.Values {
      FewAheadIsTaken(s, m, c.schedule.lanes, j);
    }
  }

  lemma CycleIsDone(c: Config, s: State, opens: set<nat>, x: Cell) returns (ms: seq<Moment>, u: State)
    requires Opening(c, s) && LanesBelow(c.schedule.lanes) <= opens && s.queued != {}
    ensures Leads(c, s, ms, u) && Opening(c, u) && CycleDone(s, u)
    ensures forall j :: j in s.queued && |AheadOf(s, j)| < c.schedule.lanes ==> Finished(s.runtimes[j], u.runtimes[j])
  {
    var m := NextTaken(c, s);
    var t;
    ms, t, u := OneCycle(c, s, opens, x);
    DoneOf(c, s, t, u, m);
  }

  // ----- every job

  lemma ProperSubsetCount(a: set<nat>, b: set<nat>)
    requires a < b
    ensures |a| < |b|
  {
    var x :| x in b && x !in a;
    SubsetSize(a, b - {x});
  }

  /** Cycle after cycle, job `j` gets its turn. */
  lemma {:induction false} TurnComes(c: Config, s: State, j: nat, x: Cell) returns (ms: seq<Moment>, t: State)
    requires Opening(c, s) && j in s.queued
    ensures Leads(c, s, ms, t) && |t.runtimes| == |s.runtimes| && Finished(s.runtimes[j], t.runtimes[j])
    decreases |s.queued|
  {
    var u;
    ms, u := CycleIsDone(c, s, LanesBelow(c.schedule.lanes), x);
    t := u;
    if !Finished(s.runtimes[j], u.runtimes[j]) {
      ProperSubsetCount(u.queued, s.queued);
      var more;
      more, t := TurnComes(c, u, j, x);
      LeadsOn(c, s, ms, u, more, t);
      ms := ms + more;
    }
  }

  // ----- from any state

  /** Starting, suspending and resuming after the open cycle is over. */
  ghost function Restarted(c: Config, s: State, now: int): State {
    Resume(c, Suspend(Start(c, s, now), now), now)
  }

  lemma SuspendClears(s: State, now: int)
    requires Inv(s) && s.status != Stopped && (s.cycle.Some? ==> s.cycle.value.end < now)
    ensures var t := Suspend(s, now);
            && t.status == Suspended && t.runtimes == s.runtimes && t.inflight == s.inflight
            && (t.cycle.Some? ==> t.cycle == s.cycle)
  {}

  lemma RestartOpens(c: Config, s: State, now: int)
    requires Inv(s) && (s.cycle.Some? ==> s.cycle.value.end < now)
    ensures var t := Restarted(c, s, now);
            && t.running && t.status == Starting && t.cycle.None?
            && t.runtimes == s.runtimes && t.inflight == s.inflight
            && t.timer.Some? && t.timer.value.kind == OpenBoundary && now <= t.timer.value.deadline
  {
    StartKeeps(c, s, now);
    SuspendClears(Start(c, s, now), now);
    NextBoundaryIsFirst(c.schedule, now, false);
  }

  lemma RestartKeeps(c: Config, s: State, now: int)
    requires Inv(s)
    ensures Inv(Restarted(c, s, now))
  {
    StartKeeps(c, s, now);
    SuspendKeeps(Start(c, s, now), now);
    ResumeKeeps(c, Suspend(Start(c, s, now), now), now);
  }

  lemma RestartIsOpening(c: Config, s: State, now: int, j: nat) returns (t: State)
    requires Inv(s) && Drained(s) && Fitting(c, s.runtimes) && Unsettled(s.runtimes, j)
    requires s.cycle.Some? ==> s.cycle.value.end < now
    ensures t == Restarted(c, s, now) && Opening(c, t) && j in t.queued && t.runtimes == s.runtimes && now <= Clock(t)
  {
    t := Restarted(c, s, now);
    RestartKeeps(c, s, now);
    RestartOpens(c, s, now);
    InvOrderable(t);
    QueuedWithoutLanes(t, j);
  }

  lemma QueuedWithoutLanes(s: State, j: nat)
    requires Inv(s) && s.cycle.None? && Unsettled(s.runtimes, j)
    ensures j in s.queued
  {}

  lemma RestartEvents(c: Config, s: State, now: int) returns (ms: seq<Moment>)
    requires Inv(s)
    ensures AllAt(ms, now) && After(c, s, ms) == Restarted(c, s, now)
  {
    var m, n, k := At(now, EvStart), At(now, EvSuspend), At(now, EvResume);
    ms := [m, n, k];
    InvOrderable(s);
    StartKeeps(c, s, now);
    InvOrderable(Start(c, s, now));
    SuspendKeeps(Start(c, s, now), now);
    InvOrderable(Suspend(Start(c, s, now), now));
    ThreeEvents(c, s, m, n, k);
  }

  /**
   No job is stuck. After every run, whatever was interrupted, suspended, degraded or stopped, every unsettled
   job can still be finished from any time after the end of the open cycle on: completed with all its cells
   sent, or cancelled if that was requested.
   */
  lemma EveryJobCanFinish(c: Config, tr: seq<Moment>, j: nat, now: int, x: Cell) returns (ms: seq<Moment>, end: int)
    requires var s := Run(c, tr);
             Drained(s) && Unsettled(s.runtimes, j) && (s.cycle.Some? ==> s.cycle.value.end < now)
    ensures Between(ms, now, end)
    ensures var s, t := Run(c, tr), Run(c, tr + ms);
            |t.runtimes| == |s.runtimes| && Finished(s.runtimes[j], t.runtimes[j])
  {
    RunFits(c, tr);
    var calls := RestartEvents(c, Run(c, tr), now);
    var u := RestartIsOpening(c, Run(c, tr), now, j);
    var more, t := TurnComes(c, u, j, x);
    ms, end := calls + more, Clock(t);
    AfterAppend(c, Run(c, tr), calls, more);
    RunAfter(c, tr, ms);
    AllAtBetween(calls, now);
    BetweenAppend(calls, more, now, now, Clock(u), end);
  }

  /**
   Jobs are served in order. When the boundary of a new cycle is due after any run, lanes open, producers answer
   and lanes accept, every queued job with fewer than `lanes` jobs before it is finished by the end of that cycle.
   */
  lemma NextCycleFinishes(c: Config, tr: seq<Moment>, opens: set<nat>, x: Cell) returns (ms: seq<Moment>, u: State)
    requires var s := Run(c, tr);
             && Drained(s) && s.timer.Some? && s.timer.value.kind == OpenBoundary && s.queued != {}
             && s.running && s.status != Stopped && s.status != Suspended
    requires forall l: nat :: l < c.schedule.lanes ==> l in opens
    ensures Leads(c, Run(c, tr), ms, u) && u == Run(c, tr + ms)
    ensures var s := Run(c, tr);
            && Orderable(s) && |u.runtimes| == |s.runtimes|
            && forall j :: j in s.queued && |AheadOf(s, j)| < c.schedule.lanes ==>
                 Finished(s.runtimes[j], u.runtimes[j])
  {
    RunFits(c, tr);
    InvOrderable(Run(c, tr));
    ms, u := CycleIsDone(c, Run(c, tr), opens, x);
    RunAfter(c, tr, ms);
  }
}
