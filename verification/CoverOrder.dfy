/**
 Who is served: the queue order and the choice of jobs for a new cycle, in terms of what jobs are and when
 they came.
 */
module CoverOrder {
  import opened Wrappers
  import opened CoverScheduler
  import opened CoverJobs
  import opened CoverQueue

  /** Two jobs that only priority and age tell apart: both being cancelled, or neither and of one kind. */
  predicate SameClass(a: Runtime, b: Runtime) {
    a.cancelRequested == b.cancelRequested && (a.cancelRequested || a.job.kind == b.job.kind)
  }

  /**
   Job `i` goes before job `j`: a requested cancel before everything else, then control before real jobs, then
   the higher priority, then the job that came first.
   */
  ghost predicate GoesFirst(rs: seq<Runtime>, i: nat, j: nat)
    requires i < |rs| && j < |rs|
  {
    var a, b := rs[i], rs[j];
    && (b.cancelRequested ==> a.cancelRequested)
    && (!a.cancelRequested && b.job.kind == Control ==> a.job.kind == Control)
    && (SameClass(a, b) ==> a.job.priority >= b.job.priority)
    && (SameClass(a, b) && a.job.priority == b.job.priority ==> i < j)
  }

  lemma OrderIsByFields(rs: seq<Runtime>, i: nat, j: nat)
    requires i < |rs| && j < |rs|
    ensures Before(rs, i, j) <==> GoesFirst(rs, i, j)
  {}

  /** The sorted queue is in that order. */
  lemma QueueByFields(rs: seq<Runtime>, q: seq<nat>)
    requires QueueOk(rs, q)
    ensures forall a, b :: 0 <= a < b < |q| ==> GoesFirst(rs, q[a], q[b])
  {
    forall a, b | 0 <= a < b < |q| ensures GoesFirst(rs, q[a], q[b]) { OrderIsByFields(rs, q[a], q[b]); }
  }

  // ----- the jobs of a cycle

  ghost predicate Fills(m: map<nat, nat>, q: set<nat>, lane: nat, lanes: nat) {
    && (forall l: nat :: l in m <==> lane <= l < lanes && l - lane < |q|)
    && (forall l :: l in m ==> m[l] in q)
  }

  lemma FillsOne(rest: map<nat, nat>, q: set<nat>, j: nat, lane: nat, lanes: nat)
    requires j in q && lane < lanes && Fills(rest, q - {j}, lane + 1, lanes)
    ensures Fills(rest[lane := j], q, lane, lanes)
  {
    assert |q - {j}| == |q| - 1;
  }

  /** As many lanes as there are jobs get one, from the first lane on, in the order of the queue. */
  lemma {:induction false} SelectFills(rs: seq<Runtime>, q: set<nat>, lane: nat, lanes: nat)
    requires forall j :: j in q ==> j < |rs|
    ensures var m := Select(rs, q, lane, lanes);
            Fills(m, q, lane, lanes) && forall k, l :: k in m && l in m && k < l ==> Before(rs, m[k], m[l])
    decreases lanes - lane
  {
    var m := Select(rs, q, lane, lanes);
    if lane < lanes && q != {} {
      var j := First(rs, q);
      SelectFills(rs, q - {j}, lane + 1, lanes);
      var rest := Select(rs, q - {j}, lane + 1, lanes);
      assert m == rest[lane := j];
      FillsOne(rest, q, j, lane, lanes);
      forall k, l | k in m && l in m && k < l ensures Before(rs, m[k], m[l]) {
        if k == lane { assert rest[l] in q - {j} && IsFirst(rs, q, j); }
      }
    }
  }

  /** The jobs on lanes go before each other in lane order, and before every job left in the queue. */
  ghost predicate TakesFirst(rs: seq<Runtime>, carried: map<nat, nat>, left: set<nat>) {
    && (forall l :: l in carried ==> carried[l] < |rs|) && (forall j :: j in left ==> j < |rs|)
    && (forall k, l :: k in carried && l in carried && k < l ==> GoesFirst(rs, carried[k], carried[l]))
    && (forall l, j :: l in carried && j in left ==> GoesFirst(rs, carried[l], j))
  }

  lemma SelectByFields(rs: seq<Runtime>, q: set<nat>, lanes: nat)
    requires forall j :: j in q ==> j < |rs|
    ensures var m := Select(rs, q, 0, lanes);
            TakesFirst(rs, m, q - m.Values) && forall l: nat :: l in m <==> l < lanes && l < |q|
  {
    var m := Select(rs, q, 0, lanes);
    SelectFills(rs, q, 0, lanes);
    SelectTakesFirst(rs, q, 0, lanes);
    forall k, l | k in m && l in m && k < l ensures GoesFirst(rs, m[k], m[l]) { OrderIsByFields(rs, m[k], m[l]); }
    forall l, j | l in m && j in q - m.Values ensures GoesFirst(rs, m[l], j) {
      assert m[l] in m.Values;
      OrderIsByFields(rs, m[l], j);
    }
  }

  lemma AdmitKeepsOrder(rs: seq<Runtime>, js: set<nat>, carried: map<nat, nat>, left: set<nat>)
    requires TakesFirst(rs, carried, left)
    ensures TakesFirst(Admit(rs, js), carried, left)
  {
    var qs := Admit(rs, js);
    assert forall i, j :: 0 <= i < |rs| && 0 <= j < |rs| && GoesFirst(rs, i, j) ==> GoesFirst(qs, i, j);
  }

  /**
   A cycle that opens on all lanes takes as many jobs as there are lanes for, one each, and exactly those that
   a requested cancel, their kind, their priority and their age put first.
   */
  lemma OpenTakesFirst(c: Config, s: State, boundary: int, opens: set<nat>)
    requires Orderable(s) && s.running && s.status != Stopped && s.status != Suspended
    requires forall l: nat :: l < c.schedule.lanes ==> l in opens
    ensures var t := OpenCycle(c, s, boundary, opens);
            && t.cycle.Some? && t.status == Active && t.queued <= s.queued
            && TakesFirst(t.runtimes, t.cycle.value.carried, t.queued)
            && (forall l: nat :: l in t.cycle.value.carried <==> l < c.schedule.lanes && l < |s.queued|)
            && t.queued == s.queued - t.cycle.value.carried.Values
  {
    var m := Select(s.runtimes, s.queued, 0, c.schedule.lanes);
    SelectByFields(s.runtimes, s.queued, c.schedule.lanes);
    AdmitKeepsOrder(s.runtimes, m.Values, m, s.queued - m.Values);
    assert LanesBelow(c.schedule.lanes) <= opens;
  }
}
