/**
 The scheduled-cover scheduler of `src/handlers/coverScheduler.ts` as a state machine.

 Time is an integer clock that the events read; lane factories, lane sends and cell producers are
 environment choices that the events carry. A job is known by its sequence number, which indexes
 `runtimes`; `queued` and the lane assignment hold such numbers. A slot's request is produced
 asynchronously, so it is an `InFlight` entry, keyed by the generation that started it.

 History that the source does not keep: per job the cells produced and accepted and the number of
 results reported; cycles opened and closed; the deadlines of all sends and the starts of all cycles.
 */
module CoverScheduler {
  import opened Wrappers
  import opened CoverSlots

  type Cell = nat

  datatype Kind = Real | Control

  datatype Status = Starting | Active | Degraded | Suspended | Stopped

  datatype Job = Job(id: string, kind: Kind, declared: nat, priority: int, cancellable: bool)

  datatype Outcome = Completed | CancelledBeforeAdmission | Cancelled | Failed

  datatype Runtime = Runtime(
    job: Job,
    everAdmitted: bool,
    sentCells: nat,
    cancelRequested: bool,
    cancelSent: bool,
    completed: bool,
    settled: bool,
    pendingCell: Option<Cell>,
    pendingCancelCell: Option<Cell>,
    produced: seq<Cell>,
    accepted: seq<Cell>,
    outcomes: seq<Outcome>)

  /** `lanes` are the open lane handles; `carried` maps a lane to the job it carries. */
  datatype Cycle = Cycle(serial: nat, start: int, end: int, lanes: set<nat>, carried: map<nat, nat>, nextSlot: nat)

  datatype TimerKind = OpenBoundary | CycleBoundary | SlotDeadline

  datatype Timer = Timer(deadline: int, kind: TimerKind)

  datatype Want = NextCell | CancelCell | DummyCell

  datatype Stage = Producing(want: Want) | Ready(source: Want, cell: Cell)

  datatype InFlight = InFlight(serial: nat, lane: nat, deadline: int, job: Option<nat>, stage: Stage)

  datatype State = State(
    status: Status,
    running: bool,
    generation: nat,
    timer: Option<Timer>,
    cycle: Option<Cycle>,
    queued: set<nat>,
    jobs: map<string, nat>,
    runtimes: seq<Runtime>,
    inflight: map<nat, InFlight>,
    cyclesOpened: nat,
    closed: seq<nat>,
    sends: seq<int>,
    starts: seq<int>)

  const INITIAL := State(Stopped, false, 0, None, None, {}, map[], [], map[], 0, [], [], [])

  /** The schedule, and the timer tolerance, which is less than one slot. */
  datatype ConfigData = Config(schedule: Schedule, drift: nat)

  type Config = c: ConfigData | c.drift * c.schedule.SlotsPerEpoch() < c.schedule.cadence
    witness Config(Schedule(0, 25, 1, 1, 1), 0)

  // ----- timers

  function Disarm(s: State): State { s.(generation := s.generation + 1, timer := None) }

  function Arm(s: State, deadline: int, kind: TimerKind): State {
    s.(generation := s.generation + 1, timer := Some(Timer(deadline, kind)))
  }

  function ArmSlot(c: Config, s: State): State
    requires s.cycle.Some?
  {
    Arm(s, SlotAt(c.schedule, s.cycle.value.start, s.cycle.value.nextSlot).deadline, SlotDeadline)
  }

  // ----- settling and requeueing

  predicate Unsettled(rs: seq<Runtime>, j: nat) { j < |rs| && !rs[j].settled }

  predicate Requeueable(r: Runtime) { !r.settled && !r.completed && !r.cancelSent }

  function SettleRuntime(r: Runtime, o: Outcome): Runtime {
    if r.settled then r else r.(settled := true, outcomes := r.outcomes + [o])
  }

  function SettleRuntimes(rs: seq<Runtime>, js: set<nat>, o: Outcome): seq<Runtime> {
    seq(|rs|, i requires 0 <= i < |rs| => if i in js then SettleRuntime(rs[i], o) else rs[i])
  }

  /** `settle` for every job of `js`. */
  function Settle(s: State, js: set<nat>, o: Outcome): State {
    s.(runtimes := SettleRuntimes(s.runtimes, js, o),
       queued := s.queued - js,
       jobs := map id | id in s.jobs && s.jobs[id] !in js :: s.jobs[id])
  }

  /** The jobs of `js` that `requeue` puts back. */
  function RequeueJobs(rs: seq<Runtime>, js: set<nat>): set<nat> {
    set j | j in js && j < |rs| && Requeueable(rs[j])
  }

  /** `interruptCycle`: lanes give up their jobs, which go back to the queue. */
  function Interrupt(s: State): State {
    if s.cycle.None? then s
    else
      var back := RequeueJobs(s.runtimes, s.cycle.value.carried.Values);
      s.(cycle := Some(s.cycle.value.(carried := map[])), queued := s.queued + back)
  }

  predicate CancelPending(r: Runtime) { r.cancelRequested && !r.cancelSent }

  /** Unsettled jobs whose lane ended, with and without a cancel cell still to send. */
  function PendingCancels(rs: seq<Runtime>, js: set<nat>): set<nat> {
    set j | j in js && Unsettled(rs, j) && CancelPending(rs[j]) && Requeueable(rs[j])
  }

  function SpentJobs(rs: seq<Runtime>, js: set<nat>): set<nat> {
    set j | j in js && Unsettled(rs, j) && !CancelPending(rs[j])
  }

  /** `finalizeCycleJobs`: a pending cancel is queued again, everything else has used up its lane. */
  function Finalize(s: State): State {
    if s.cycle.None? then s
    else
      var ending := s.cycle.value.carried.Values;
      var t := Settle(s, SpentJobs(s.runtimes, ending), Failed);
      t.(cycle := Some(s.cycle.value.(carried := map[])), queued := t.queued + PendingCancels(s.runtimes, ending))
  }

  /** `closeCurrentCycle`. */
  function Close(s: State): State {
    if s.cycle.None? then s else s.(cycle := None, closed := s.closed + [s.cycle.value.serial])
  }

  // ----- the queue order

  function Tier(r: Runtime): nat { if r.cancelRequested then 0 else if r.job.kind == Control then 1 else 2 }

  /** `compareQueuedJobs`: pending cancels first, then control, then priority, then age. */
  predicate Before(rs: seq<Runtime>, i: nat, j: nat)
    requires i < |rs| && j < |rs|
  {
    var a, b := rs[i], rs[j];
    if Tier(a) != Tier(b) then Tier(a) < Tier(b)
    else if a.job.priority != b.job.priority then a.job.priority > b.job.priority
    else i < j
  }

  ghost predicate IsFirst(rs: seq<Runtime>, q: set<nat>, j: nat) {
    j in q && j < |rs| && forall k :: k in q && k != j && k < |rs| ==> Before(rs, j, k)
  }

  lemma {:induction false} FirstExists(rs: seq<Runtime>, q: set<nat>)
    requires q != {} && forall j :: j in q ==> j < |rs|
    ensures exists j :: IsFirst(rs, q, j)
    decreases q
  {
    var x :| x in q;
    if q == {x} {
      assert IsFirst(rs, q, x);
    } else {
      FirstExists(rs, q - {x});
      var y :| IsFirst(rs, q - {x}, y);
      if Before(rs, x, y) {
        assert forall k :: k in q && k != x ==> k == y || Before(rs, y, k);
        assert IsFirst(rs, q, x);
      } else {
        assert Before(rs, y, x);
        assert IsFirst(rs, q, y);
      }
    }
  }

  /** What `sortQueue` followed by `shift` takes. */
  ghost function First(rs: seq<Runtime>, q: set<nat>): (j: nat)
    requires q != {} && forall j :: j in q ==> j < |rs|
    ensures IsFirst(rs, q, j)
  {
    FirstExists(rs, q);
    var j :| IsFirst(rs, q, j);
    j
  }

  /** The jobs that `openCycle` takes for the lanes from `lane` on. */
  ghost function Select(rs: seq<Runtime>, q: set<nat>, lane: nat, lanes: nat): map<nat, nat>
    requires forall j :: j in q ==> j < |rs|
    decreases lanes - lane
  {
    if lane >= lanes || q == {} then map[]
    else
      var j := First(rs, q);
      Select(rs, q - {j}, lane + 1, lanes)[lane := j]
  }

  // ----- opening a cycle

  function Admit(rs: seq<Runtime>, js: set<nat>): seq<Runtime> {
    seq(|rs|, i requires 0 <= i < |rs| => if i in js then rs[i].(everAdmitted := true) else rs[i])
  }

  function LanesBelow(n: nat): (r: set<nat>)
    ensures forall i: nat :: i in r <==> i < n
  {
    if n == 0 then {} else LanesBelow(n - 1) + {n - 1}
  }

  /** The jobs chosen for the lanes leave the queue and are admitted. */
  function Admitted(s: State, chosen: map<nat, nat>): State {
    s.(runtimes := Admit(s.runtimes, chosen.Values), queued := s.queued - chosen.Values)
  }

  /** The lanes that opened carry the chosen jobs; if one failed to open, all jobs go back. */
  function Installed(c: Config, s: State, boundary: int, opens: set<nat>, chosen: map<nat, nat>): (t: State)
    ensures t.cycle.Some?
  {
    var lanes := LanesBelow(c.schedule.lanes);
    var open := Cycle(s.cyclesOpened, boundary, boundary + c.schedule.CycleMs(), lanes * opens, map[], 0);
    var t := s.(cyclesOpened := s.cyclesOpened + 1, starts := s.starts + [boundary]);
    if lanes <= opens then t.(cycle := Some(open.(carried := chosen)), status := Active)
    else t.(cycle := Some(open), queued := s.queued + RequeueJobs(s.runtimes, chosen.Values), status := Degraded)
  }

  ghost function Opened(c: Config, s: State, boundary: int, opens: set<nat>): (t: State)
    requires forall j :: j in s.queued ==> j < |s.runtimes|
    ensures t.cycle.Some?
  {
    var chosen := Select(s.runtimes, s.queued, 0, c.schedule.lanes);
    Installed(c, Admitted(s, chosen), boundary, opens, chosen)
  }

  /** `openCycle`; `opens` are the lanes whose factory succeeded. */
  ghost function OpenCycle(c: Config, s: State, boundary: int, opens: set<nat>): State
    requires forall j :: j in s.queued ==> j < |s.runtimes|
  {
    if !s.running || s.status == Stopped || s.status == Suspended then s
    else
      var t := Opened(c, s, boundary, opens);
      if t.status == Active then ArmSlot(c, t) else Arm(t, t.cycle.value.end, CycleBoundary)
  }

  // ----- public calls

  function Enqueue(c: Config, s: State, job: Job): Option<State> {
    if job.id == "" || job.id in s.jobs || job.declared < 1 || job.declared > c.schedule.SlotsPerLane() then None
    else
      var r := Runtime(job, false, 0, false, false, false, false, None, None, [], [], []);
      Some(s.(runtimes := s.runtimes + [r], queued := s.queued + {|s.runtimes|},
          jobs := s.jobs[job.id := |s.runtimes|]))
  }

  datatype CancelResult = NotFound | BeforeAdmission | Pending | Refused

  function Cancel(s: State, id: string): (State, CancelResult) {
    if id !in s.jobs || s.jobs[id] >= |s.runtimes| || s.runtimes[s.jobs[id]].settled then (s, NotFound)
    else
      var j := s.jobs[id];
      var r := s.runtimes[j];
      if !r.everAdmitted then (Settle(s, {j}, CancelledBeforeAdmission), BeforeAdmission)
      else if !r.job.cancellable then (s, Refused)
      else (s.(runtimes := s.runtimes[j := r.(cancelRequested := true, completed := false)]), Pending)
  }

  function Complete(s: State, id: string): (State, bool) {
    if id !in s.jobs || s.jobs[id] >= |s.runtimes| || s.runtimes[s.jobs[id]].settled then (s, false)
    else
      var j := s.jobs[id];
      var t := s.(runtimes := s.runtimes[j := s.runtimes[j].(completed := true, pendingCell := None)]);
      (Settle(t, {j}, Completed), true)
  }

  function Start(c: Config, s: State, now: int): State {
    if s.status != Stopped then s
    else
      var t := s.(running := true, status := Starting);
      if s.cycle.Some? then Arm(t, s.cycle.value.end, CycleBoundary)
      else Arm(t, NextBoundary(c.schedule, now, true), OpenBoundary)
  }

  /** Wait for the end of the open cycle, or clean it up if that has passed. */
  function AwaitEnd(s: State, now: int): State
    requires s.cycle.Some?
  {
    if now <= s.cycle.value.end then Arm(s, s.cycle.value.end, CycleBoundary) else Close(s)
  }

  function Suspend(s: State, now: int): State {
    if s.status == Stopped || s.status == Suspended then s
    else
      var t := Disarm(s).(status := Suspended);
      if s.cycle.None? then t else AwaitEnd(Interrupt(t), now)
  }

  function Resume(c: Config, s: State, now: int): State {
    if s.status != Suspended then s
    else
      var t := Disarm(s).(running := true, status := Starting);
      if s.cycle.Some? && now < s.cycle.value.end then Arm(t, s.cycle.value.end, CycleBoundary)
      else Arm(Close(t), NextBoundary(c.schedule, now, false), OpenBoundary)
  }

  function Stop(s: State, now: int): State {
    if s.status == Stopped && s.cycle.None? then s
    else
      var t := Settle(Disarm(s).(running := false, status := Stopped), s.jobs.Values, Failed);
      if s.cycle.None? then t else AwaitEnd(t.(cycle := Some(s.cycle.value.(carried := map[]))), now)
  }

  function Degrade(c: Config, s: State, now: int): State {
    if s.status == Stopped || s.status == Suspended then s
    else
      var t := Disarm(s).(status := Degraded);
      if s.cycle.Some? && now <= s.cycle.value.end then AwaitEnd(Interrupt(t), now)
      else
        var u := Close(Interrupt(t));
        if s.running then Arm(u, NextBoundary(c.schedule, now, false), OpenBoundary) else u
  }

  // ----- timer callbacks

  function LateTimer(c: Config, s: State, kind: TimerKind, now: int): State {
    if kind == SlotDeadline then Degrade(c, s, now)
    else
      var t := Close(Interrupt(s));
      if s.status == Stopped then t else t.(status := Suspended)
  }

  /** `handleCycleBoundary`; `closeOk` tells whether every lane closed without throwing. */
  ghost function EndCycle(c: Config, s: State, boundary: int, now: int, closeOk: bool, opens: set<nat>): State
    requires forall j :: j in s.queued ==> j < |s.runtimes|
  {
    if s.cycle.None? || s.cycle.value.end != boundary then s
    else
      var t := Close(Finalize(s));
      if !closeOk then
        var u := if s.status == Stopped then t else t.(status := Degraded);
        if s.running then Arm(u, NextBoundary(c.schedule, now, false), OpenBoundary) else u
      else OpenCycle(c, t, boundary, opens)
  }

  /** What the request of a slot has to wait for; a cell kept from an earlier attempt is ready. */
  function FirstStage(r: Runtime): Stage {
    if r.settled then Producing(DummyCell)
    else if CancelPending(r) then
      if r.pendingCancelCell.Some? then Ready(CancelCell, r.pendingCancelCell.value) else Producing(CancelCell)
    else if !r.completed && r.sentCells < r.job.declared then
      if r.pendingCell.Some? then Ready(NextCell, r.pendingCell.value) else Producing(NextCell)
    else Producing(DummyCell)
  }

  /** The first half of `sendSlot`, up to the first await. */
  function BeginSlot(c: Config, s: State, now: int): State {
    if s.cycle.None? || s.status != Active then s
    else
      var slot := SlotAt(c.schedule, s.cycle.value.start, s.cycle.value.nextSlot);
      if slot.lane !in s.cycle.value.lanes then Degrade(c, s, now)
      else
        var lane := slot.lane as nat;
        var job := if lane in s.cycle.value.carried then Some(s.cycle.value.carried[lane]) else None;
        var stage := if job.Some? && job.value < |s.runtimes| then FirstStage(s.runtimes[job.value])
            else Producing(DummyCell);
        s.(inflight := s.inflight[s.generation := InFlight(s.cycle.value.serial, lane, slot.deadline, job, stage)])
  }

  ghost function Tick(c: Config, s: State, now: int, opens: set<nat>, closeOk: bool): State
    requires forall j :: j in s.queued ==> j < |s.runtimes|
  {
    if s.timer.None? || now < s.timer.value.deadline then s
    else
      var deadline, kind, t := s.timer.value.deadline, s.timer.value.kind, s.(timer := None);
      if now > deadline + c.drift then LateTimer(c, t, kind, now)
      else match kind
        case OpenBoundary => OpenCycle(c, t, deadline, opens)
        case CycleBoundary => EndCycle(c, t, deadline, now, closeOk, opens)
        case SlotDeadline => BeginSlot(c, t, now)
  }

  // ----- production and sending

  datatype Production = Cell(cell: Cell) | Nothing | Threw

  /** A producer answered the request started at generation `g`. */
  function Produce(c: Config, s: State, g: nat, p: Production, now: int): State
    requires g in s.inflight && s.inflight[g].stage.Producing?
  {
    var f := s.inflight[g];
    var want := f.stage.want;
    match p
    case Cell(x) =>
      var t := s.(inflight := s.inflight[g := f.(stage := Ready(want, x))]);
      if want == NextCell && f.job.Some? && f.job.value < |s.runtimes| then
        var r := s.runtimes[f.job.value];
        t.(runtimes := s.runtimes[f.job.value := r.(produced := r.produced + [x])])
      else t
    case Nothing =>
      if want == NextCell then s.(inflight := s.inflight[g := f.(stage := Producing(DummyCell))])
      else Degrade(c, s.(inflight := s.inflight - {g}), now)
    case Threw => Degrade(c, s.(inflight := s.inflight - {g}), now)
  }

  /** The job that the lane of a request carries now. */
  function LaneJob(s: State, f: InFlight): Option<nat> {
    if s.cycle.Some? && s.cycle.value.serial == f.serial && f.lane in s.cycle.value.carried
    then Some(s.cycle.value.carried[f.lane]) else None
  }

  /** The job whose next slot can use an unsent cell of the request. */
  function CacheTarget(s: State, f: InFlight): Option<nat> {
    if f.job.Some? && f.job.value < |s.runtimes| && s.runtimes[f.job.value].job.id in s.jobs
    then Some(s.jobs[s.runtimes[f.job.value].job.id]) else LaneJob(s, f)
  }

  function WithUnsent(r: Runtime, stage: Stage): Runtime
    requires stage.Ready?
  {
    match stage.source
    case CancelCell => r.(pendingCancelCell := Some(stage.cell))
    case NextCell => r.(pendingCell := Some(stage.cell))
    case DummyCell => r
  }

  /** `cacheUnsent`: keep the cell for the job's next slot. */
  function CacheUnsent(s: State, f: InFlight): State
    requires f.stage.Ready?
  {
    var target := CacheTarget(s, f);
    if target.None? || !Unsettled(s.runtimes, target.value) then s
    else s.(runtimes := s.runtimes[target.value := WithUnsent(s.runtimes[target.value], f.stage)])
  }

  /** The runtime of a job after the lane took one of its cells, before it is settled. */
  function AfterSent(r: Runtime, source: Want): Runtime {
    match source
    case CancelCell => r.(pendingCancelCell := None, cancelSent := true)
    case NextCell =>
      var sent := r.sentCells + 1;
      r.(pendingCell := None, sentCells := sent, completed := r.completed || sent == r.job.declared)
    case DummyCell => r
  }

  /** `acceptSent`: the lane took the cell. */
  function AcceptSent(s: State, f: InFlight): State
    requires f.stage.Ready?
  {
    var lane := LaneJob(s, f);
    if lane.None? || !Unsettled(s.runtimes, lane.value) then s
    else
      var j := lane.value;
      var r := s.runtimes[j];
      var t := s.(runtimes := s.runtimes[j := AfterSent(r, f.stage.source)]);
      if f.stage.source == CancelCell then Settle(t, {j}, Cancelled)
      else if f.stage.source == NextCell && r.sentCells + 1 == r.job.declared then Settle(t, {j}, Completed)
      else t
  }

  /** History: the lane accepted a produced cell of the request's job. */
  function RecordAccepted(s: State, f: InFlight): State
    requires f.stage.Ready?
  {
    if f.stage.source == NextCell && f.job.Some? && f.job.value < |s.runtimes| then
      var r := s.runtimes[f.job.value];
      s.(runtimes := s.runtimes[f.job.value := r.(accepted := r.accepted + [f.stage.cell])])
    else s
  }

  /** After an accepted send: the next slot of the cycle, or its end. */
  function NextSlot(c: Config, s: State, f: InFlight): State {
    if s.cycle.None? || s.cycle.value.serial != f.serial then s
    else
      var cycle := s.cycle.value.(nextSlot := s.cycle.value.nextSlot + 1);
      var t := s.(cycle := Some(cycle));
      if cycle.nextSlot < c.schedule.CycleSlots() then ArmSlot(c, t) else Arm(t, cycle.end, CycleBoundary)
  }

  datatype Transport = Accepted | Backpressure | SendFailed

  /** The second half of `sendSlot`, once the request of generation `g` is ready. */
  function Continue(c: Config, s: State, g: nat, now: int, transport: Transport): State
    requires g in s.inflight && s.inflight[g].stage.Ready?
  {
    var f, t := s.inflight[g], s.(inflight := s.inflight - {g});
    if g != s.generation then CacheUnsent(t, f)
    else if now > f.deadline + c.drift then Degrade(c, CacheUnsent(t, f), now)
    else
      var u := t.(sends := t.sends + [f.deadline]);
      if transport != Accepted then Degrade(c, CacheUnsent(u, f), now)
      else NextSlot(c, AcceptSent(RecordAccepted(u, f), f), f)
  }

  // ----- runs

  datatype Event =
    | EvEnqueue(job: Job)
    | EvCancel(id: string)
    | EvComplete(id: string)
    | EvStart
    | EvSuspend
    | EvResume
    | EvStop
    | EvTick(opens: set<nat>, closeOk: bool)
    | EvProduce(g: nat, production: Production)
    | EvContinue(g: nat, transport: Transport)

  /** Every queued number names a job, so that the queue can be ordered. */
  ghost predicate Orderable(s: State) { forall j :: j in s.queued ==> j < |s.runtimes| }

  /**
   No answered request waits to go on. The event loop runs the continuations of settled promises before
   the next timer callback, so a timer never fires in any other state.
   */
  predicate Drained(s: State) { forall g :: g in s.inflight ==> s.inflight[g].stage.Producing? }

  ghost function Step(c: Config, s: State, now: int, ev: Event): State
    requires Orderable(s)
  {
    match ev
    case EvEnqueue(job) => (match Enqueue(c, s, job) case None => s case Some(t) => t)
    case EvCancel(id) => Cancel(s, id).0
    case EvComplete(id) => Complete(s, id).0
    case EvStart => Start(c, s, now)
    case EvSuspend => Suspend(s, now)
    case EvResume => Resume(c, s, now)
    case EvStop => Stop(s, now)
    case EvTick(opens, closeOk) => if Drained(s) then Tick(c, s, now, opens, closeOk) else s
    case EvProduce(g, p) => if g in s.inflight && s.inflight[g].stage.Producing? then Produce(c, s, g, p, now) else s
    case EvContinue(g, t) => if g in s.inflight && s.inflight[g].stage.Ready? then Continue(c, s, g, now, t) else s
  }

  /** The request is for a cell of the job's `nextCell`. */
  predicate IsNext(stage: Stage) { if stage.Producing? then stage.want == NextCell else stage.source == NextCell }

  /** A `nextCell` request of the job is on its way: asked for, and not yet sent or kept. */
  ghost predicate NextOnWay(inflight: map<nat, InFlight>, j: nat) {
    exists g :: g in inflight && inflight[g].job == Some(j) && IsNext(inflight[g].stage)
  }

  /** A `nextCell` request of a job with this id is on its way. */
  ghost predicate IdOnWay(rs: seq<Runtime>, inflight: map<nat, InFlight>, id: string) {
    exists g ::
      && g in inflight && IsNext(inflight[g].stage)
      && inflight[g].job.Some? && inflight[g].job.value < |rs| && rs[inflight[g].job.value].job.id == id
  }

  ghost predicate SlotBegins(c: Config, s: State, now: int, lane: nat) {
    && Drained(s) && s.timer.Some? && s.timer.value.kind == SlotDeadline
    && s.timer.value.deadline <= now <= s.timer.value.deadline + c.drift
    && s.cycle.Some? && SlotAt(c.schedule, s.cycle.value.start, s.cycle.value.nextSlot).lane == lane
    && lane in s.cycle.value.lanes
  }

  /** The slot that is due asks the job's `nextCell` while an earlier such request is still on its way. */
  ghost predicate Overlaps(c: Config, s: State, now: int, lane: nat) {
    && SlotBegins(c, s, now, lane) && lane in s.cycle.value.carried
    && var j := s.cycle.value.carried[lane];
       NextOnWay(s.inflight, j) && j < |s.runtimes| && IsNext(FirstStage(s.runtimes[j]))
  }

  /** A job is accepted under the id of an earlier job whose `nextCell` request is still on its way. */
  ghost predicate Reuses(c: Config, s: State, job: Job) {
    Enqueue(c, s, job).Some? && IdOnWay(s.runtimes, s.inflight, job.id)
  }

  /**
   The environment keeps its part: while a `nextCell` request of a job is on its way, no slot asks that
   job again and no new job takes its id. Requests for dummy and cancel cells may overlap with anything.
   */
  ghost predicate Enabled(c: Config, s: State, now: int, ev: Event) {
    match ev
    case EvEnqueue(job) => !Reuses(c, s, job)
    case EvTick(_, _) => forall lane: nat :: !Overlaps(c, s, now, lane)
    case _ => true
  }
}
