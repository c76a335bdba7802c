/**
 Why cell conservation asks that `nextCell` requests of one job do not overlap: wherever a run reaches
 such an overlap, a few more events break the order of the job's cells; and such runs exist.
 */
module CoverOverlap {
  import opened Wrappers
  import opened CoverSlots
  import opened CoverScheduler
  import opened CoverJobs
  import opened CoverCells
  import opened CoverTime

  /** One event, and a sequence of events, from any state. */
  ghost function Next(c: Config, s: State, m: Moment): State { if Orderable(s) then Step(c, s, m.now, m.event) else s }

  ghost function After(c: Config, s: State, ms: seq<Moment>): State {
    if ms == [] then s else Next(c, After(c, s, ms[..|ms| - 1]), ms[|ms| - 1])
  }

  lemma AfterOne(c: Config, s: State, ms: seq<Moment>, m: Moment)
    ensures After(c, s, ms + [m]) == Next(c, After(c, s, ms), m)
  {
    assert (ms + [m])[..|ms|] == ms;
  }

  lemma RunOne(c: Config, tr: seq<Moment>, m: Moment)
    ensures Run(c, tr + [m]) == Next(c, Run(c, tr), m)
  {
    assert (tr + [m])[..|tr|] == tr;
    InvOrderable(Run(c, tr));
  }

  lemma {:induction false} RunAfter(c: Config, tr: seq<Moment>, ms: seq<Moment>)
    ensures Run(c, tr + ms) == After(c, Run(c, tr), ms)
    decreases |ms|
  {
    if ms == [] {
      assert tr + ms == tr;
    } else {
      var rest, m := ms[..|ms| - 1], ms[|ms| - 1];
      calc {
        Run(c, tr + ms);
        { assert tr + rest + [m] == tr + ms; }
        Run(c, tr + rest + [m]);
        { RunOne(c, tr + rest, m); }
        Next(c, Run(c, tr + rest), m);
        { RunAfter(c, tr, rest); }
        Next(c, After(c, Run(c, tr), rest), m);
      }
    }
  }

  /** Two `nextCell` requests of job `j`: the one of generation `g`, and a second one that is being served. */
  ghost predicate Twice(s: State, g: nat, j: nat) {
    && g in s.inflight && g != s.generation && s.inflight[g].job == Some(j) && IsNext(s.inflight[g].stage)
    && s.generation in s.inflight && s.inflight[s.generation].job == Some(j)
    && s.inflight[s.generation].stage == Producing(NextCell)
    && LaneJob(s, s.inflight[s.generation]) == Some(j) && Unsettled(s.runtimes, j)
  }

  /** The request that a due slot of a job begins. */
  ghost function Request(s: State, lane: nat): InFlight
    requires s.timer.Some? && s.cycle.Some? && lane in s.cycle.value.carried
  {
    InFlight(s.cycle.value.serial, lane, s.timer.value.deadline, Some(s.cycle.value.carried[lane]), Producing(NextCell))
  }

  lemma SlotBeginsRequest(c: Config, s: State, now: int, lane: nat, opens: set<nat>, closeOk: bool)
    requires Orderable(s) && s.status == Active && SlotBegins(c, s, now, lane) && lane in s.cycle.value.carried
    requires var j := s.cycle.value.carried[lane];
             j < |s.runtimes| && FirstStage(s.runtimes[j]) == Producing(NextCell)
    requires s.timer.value.deadline == SlotAt(c.schedule, s.cycle.value.start, s.cycle.value.nextSlot).deadline
    ensures Tick(c, s, now, opens, closeOk) ==
        s.(timer := None, inflight := s.inflight[s.generation := Request(s, lane)])
  {}

  /** The due slot begins: the second request is under way. */
  lemma OverlapBegins(s: State, lane: nat, g: nat)
    requires s.generation !in s.inflight && s.timer.Some? && s.cycle.Some? && lane in s.cycle.value.carried
    requires var j := s.cycle.value.carried[lane];
             Unsettled(s.runtimes, j) && g in s.inflight && s.inflight[g].job == Some(j) && IsNext(s.inflight[g].stage)
    ensures var t := s.(timer := None, inflight := s.inflight[s.generation := Request(s, lane)]);
            Twice(t, g, s.cycle.value.carried[lane])
  {}

  /** The first request is answered with `x`. */
  lemma FirstAnswer(c: Config, s: State, g: nat, j: nat, now: int, x: Cell)
    requires Twice(s, g, j) && s.inflight[g].stage.Producing?
    ensures var t := Produce(c, s, g, Cell(x), now);
            && Twice(t, g, j) && t.generation == s.generation
            && t.inflight[t.generation] == s.inflight[s.generation]
            && t.runtimes[j].produced == s.runtimes[j].produced + [x]
            && t.runtimes[j].accepted == s.runtimes[j].accepted
  {}

  /** The second request is answered with `y`. */
  lemma SecondAnswer(c: Config, s: State, g: nat, j: nat, now: int, y: Cell)
    requires Twice(s, g, j)
    ensures var t, h := Produce(c, s, s.generation, Cell(y), now), s.generation;
            && t.generation == h && h in t.inflight && t.inflight[h] == s.inflight[h].(stage := Ready(NextCell, y))
            && LaneJob(t, t.inflight[h]) == Some(j) && Unsettled(t.runtimes, j)
            && t.runtimes[j].produced == s.runtimes[j].produced + [y]
            && t.runtimes[j].accepted == s.runtimes[j].accepted
  {}

  /** The lane accepts the second answer. */
  lemma SecondSent(c: Config, s: State, j: nat, now: int, y: Cell)
    requires s.generation in s.inflight && s.inflight[s.generation].stage == Ready(NextCell, y)
    requires s.inflight[s.generation].job == Some(j) && LaneJob(s, s.inflight[s.generation]) == Some(j)
    requires Unsettled(s.runtimes, j)
    requires now <= s.inflight[s.generation].deadline + c.drift
    ensures var t := Continue(c, s, s.generation, now, Accepted);
            && j < |t.runtimes|
            && t.runtimes[j].produced == s.runtimes[j].produced
            && t.runtimes[j].accepted == s.runtimes[j].accepted + [y]
  {
    var f := s.inflight[s.generation];
    var u := s.(inflight := s.inflight - {s.generation}, sends := s.sends + [f.deadline]);
    assert LaneJob(u, f) == f.job;
    AcceptedRuntimes(u, f);
    var v := AcceptSent(RecordAccepted(u, f), f);
    assert NextSlot(c, v, f).runtimes == v.runtimes;
  }

  /** Two answers, the second of which is sent first, are out of order. */
  lemma OutOfOrder(a: seq<Cell>, x: Cell, y: Cell)
    requires x != y
    ensures !(a + [y] <= a + [x] + [y])
  {
    assert (a + [y])[|a|] == y && (a + [x] + [y])[|a|] == x;
  }

  /** The lane accepted cells of job `j` that are not a prefix of what the job produced. */
  ghost predicate Disordered(s: State, j: nat) {
    j < |s.runtimes| && !(s.runtimes[j].accepted <= s.runtimes[j].produced)
  }

  /** The second request answered and sent. */
  ghost function SendSecond(c: Config, s: State, now: int, y: Cell): State
    requires s.generation in s.inflight && s.inflight[s.generation].stage.Producing?
  {
    Continue(c, Produce(c, s, s.generation, Cell(y), now), s.generation, now, Accepted)
  }

  lemma SecondFirst(c: Config, s: State, g: nat, j: nat, now: int, x: Cell)
    requires Twice(s, g, j) && now <= s.inflight[s.generation].deadline + c.drift
    requires s.runtimes[j].produced == s.runtimes[j].accepted + [x]
    ensures Disordered(SendSecond(c, s, now, x + 1), j)
  {
    SecondAnswer(c, s, g, j, now, x + 1);
    SecondSent(c, Produce(c, s, s.generation, Cell(x + 1), now), j, now, x + 1);
    OutOfOrder(s.runtimes[j].accepted, x, x + 1);
  }

  lemma ProduceOne(c: Config, s: State, g: nat, now: int, y: Cell)
    requires Orderable(s) && g in s.inflight && s.inflight[g].stage.Producing?
    ensures Next(c, s, At(now, EvProduce(g, Cell(y)))) == Produce(c, s, g, Cell(y), now)
    ensures Orderable(Produce(c, s, g, Cell(y), now))
  {}

  lemma ContinueOne(c: Config, s: State, g: nat, now: int)
    requires Orderable(s) && g in s.inflight && s.inflight[g].stage.Ready?
    ensures Next(c, s, At(now, EvContinue(g, Accepted))) == Continue(c, s, g, now, Accepted)
  {}

  lemma {:induction false} AfterCons(c: Config, s: State, m: Moment, ms: seq<Moment>)
    ensures After(c, s, [m] + ms) == After(c, Next(c, s, m), ms)
    decreases |ms|
  {
    if ms == [] {
      assert [m] + ms == [] + [m];
      AfterOne(c, s, [], m);
    } else {
      var rest, last := ms[..|ms| - 1], ms[|ms| - 1];
      calc {
        After(c, s, [m] + ms);
        { assert [m] + ms == [m] + rest + [last]; AfterOne(c, s, [m] + rest, last); }
        Next(c, After(c, s, [m] + rest), last);
        { AfterCons(c, s, m, rest); }
        Next(c, After(c, Next(c, s, m), rest), last);
      }
    }
  }

  lemma RunSecond(c: Config, s: State, now: int, y: Cell) returns (ms: seq<Moment>)
    requires Orderable(s) && s.generation in s.inflight && s.inflight[s.generation].stage.Producing?
    ensures After(c, s, ms) == SendSecond(c, s, now, y) && AllAt(ms, now)
  {
    var h := s.generation;
    var m, n := At(now, EvProduce(h, Cell(y))), At(now, EvContinue(h, Accepted));
    ProduceOne(c, s, h, now, y);
    ContinueOne(c, Produce(c, s, h, Cell(y), now), h, now);
    ms := [m] + [n];
    AfterOne(c, s, [m], n);
    AfterOne(c, s, [], m);
    assert [] + [m] == [m];
  }

  ghost predicate AllAt(ms: seq<Moment>, now: int) { forall k :: 0 <= k < |ms| ==> ms[k].now == now }

  lemma SecondDisorders(c: Config, s: State, g: nat, j: nat, now: int, x: Cell) returns (ms: seq<Moment>)
    requires Orderable(s) && Twice(s, g, j) && now <= s.inflight[s.generation].deadline + c.drift
    requires s.runtimes[j].produced == s.runtimes[j].accepted + [x]
    ensures AllAt(ms, now) && Disordered(After(c, s, ms), j)
  {
    SecondFirst(c, s, g, j, now, x);
    ms := RunSecond(c, s, now, x + 1);
  }

  /** The first answer, which is still missing, comes before those events. */
  lemma BothDisorder(c: Config, s: State, g: nat, j: nat, now: int) returns (ms: seq<Moment>)
    requires Orderable(s) && Twice(s, g, j) && now <= s.inflight[s.generation].deadline + c.drift
    requires s.inflight[g].stage.Producing? && s.runtimes[j].produced == s.runtimes[j].accepted
    ensures AllAt(ms, now) && Disordered(After(c, s, ms), j)
  {
    var m := At(now, EvProduce(g, Cell(0)));
    ProduceOne(c, s, g, now, 0);
    FirstAnswer(c, s, g, j, now, 0);
    var rest := SecondDisorders(c, Next(c, s, m), g, j, now, 0);
    AfterCons(c, s, m, rest);
    ms := [m] + rest;
  }

  /** What a run that kept the condition guarantees there. */
  ghost predicate Prepared(c: Config, s: State) {
    && Orderable(s) && CellBooks(s.runtimes, s.inflight)
    && (s.timer.Some? && s.timer.value.kind == SlotDeadline ==>
          && s.cycle.Some? && s.status == Active && s.generation !in s.inflight
          && s.timer.value.deadline == SlotAt(c.schedule, s.cycle.value.start, s.cycle.value.nextSlot).deadline)
  }

  lemma RunPrepared(c: Config, tr: seq<Moment>)
    requires EnabledRun(c, tr) && Monotonic(tr)
    ensures Prepared(c, Run(c, tr))
  {
    SlotIsDue(c, tr);
    RunKeepsCells(c, tr);
    InvOrderable(Run(c, tr));
  }

  lemma OverlapFrom(c: Config, s: State, now: int, lane: nat, opens: set<nat>, closeOk: bool) returns (ms: seq<Moment>)
    requires Prepared(c, s) && Overlaps(c, s, now, lane)
    ensures AllAt(ms, now)
    ensures Disordered(After(c, Next(c, s, At(now, EvTick(opens, closeOk))), ms), s.cycle.value.carried[lane])
  {
    var g, t := TickOverlaps(c, s, now, lane, opens, closeOk);
    ms := BothDisorder(c, t, g, s.cycle.value.carried[lane], now);
  }

  /**
   The condition is exact: in every run that kept it so far, a slot that asks a job's `nextCell` while
   an earlier such request is on its way can be followed by at most three events, at the same time,
   after which the lane has accepted the job's cells out of order.
   */
  lemma OverlapBreaksOrder(c: Config, tr: seq<Moment>, now: int, lane: nat, opens: set<nat>, closeOk: bool)
    returns (more: seq<Moment>)
    requires EnabledRun(c, tr) && Monotonic(tr) && Overlaps(c, Run(c, tr), now, lane)
    ensures AllAt(more, now)
    ensures Disordered(Run(c, tr + [At(now, EvTick(opens, closeOk))] + more), Run(c, tr).cycle.value.carried[lane])
  {
    RunPrepared(c, tr);
    more := OverlapFrom(c, Run(c, tr), now, lane, opens, closeOk);
    RunThrough(c, tr, At(now, EvTick(opens, closeOk)), Next(c, Run(c, tr), At(now, EvTick(opens, closeOk))), more);
  }

  lemma RunThrough(c: Config, tr: seq<Moment>, m: Moment, t: State, ms: seq<Moment>)
    requires t == Next(c, Run(c, tr), m)
    ensures Run(c, tr + [m] + ms) == After(c, t, ms)
  {
    RunOne(c, tr, m);
    RunAfter(c, tr + [m], ms);
  }

  lemma TickOverlaps(c: Config, s: State, now: int, lane: nat, opens: set<nat>, closeOk: bool)
      returns (g: nat, t: State)
    requires Orderable(s) && CellBooks(s.runtimes, s.inflight) && s.status == Active && s.generation !in s.inflight
    requires Overlaps(c, s, now, lane)
    requires s.timer.value.deadline == SlotAt(c.schedule, s.cycle.value.start, s.cycle.value.nextSlot).deadline
    ensures t == Tick(c, s, now, opens, closeOk) && Orderable(t) && Twice(t, g, s.cycle.value.carried[lane])
    ensures now <= t.inflight[t.generation].deadline + c.drift
    ensures var r := t.runtimes[s.cycle.value.carried[lane]];
            t.inflight[g].stage.Producing? && r.produced == r.accepted
  {
    var j := s.cycle.value.carried[lane];
    g :| g in s.inflight && s.inflight[g].job == Some(j) && IsNext(s.inflight[g].stage);
    assert FlightCells(s.runtimes[j], s.inflight[g].stage);
    t := s.(timer := None, inflight := s.inflight[s.generation := Request(s, lane)]);
    SlotBeginsRequest(c, s, now, lane, opens, closeOk);
    OverlapBegins(s, lane, g);
  }

  /** An armed slot timer is set to the deadline of the slot. */
  lemma SlotIsDue(c: Config, tr: seq<Moment>)
    requires Monotonic(tr)
    ensures var s := Run(c, tr);
            s.timer.Some? && s.timer.value.kind == SlotDeadline ==>
              && s.cycle.Some? && s.status == Active && s.generation !in s.inflight
              && s.timer.value.deadline == SlotAt(c.schedule, s.cycle.value.start, s.cycle.value.nextSlot).deadline
  {
    RunKeepsTime(c, tr);
    var s := Run(c, tr);
    if s.cycle.Some? { DeadlineIsOffset(c.schedule, s.cycle.value.start, s.cycle.value.nextSlot); }
  }
}
