/** The job queue of the scheduler as the source keeps it: an array sorted by `compareQueuedJobs`. */
module CoverQueue {
  import opened Seqs
  import opened CoverScheduler

  function Members(q: seq<nat>): (r: set<nat>)
    ensures forall j :: j in r <==> j in q
  {
    set j | j in q
  }

  predicate Known(rs: seq<Runtime>, q: seq<nat>) { forall a :: 0 <= a < |q| ==> q[a] < |rs| }

  ghost predicate Ordered(rs: seq<Runtime>, q: seq<nat>)
    requires Known(rs, q)
  {
    forall a, b :: 0 <= a < b < |q| ==> Before(rs, q[a], q[b])
  }

  /** No job twice, and every job before all that `compareQueuedJobs` puts after it. */
  ghost predicate QueueOk(rs: seq<Runtime>, q: seq<nat>) { NoDup(q) && Known(rs, q) && Ordered(rs, q) }

  function Insert(rs: seq<Runtime>, q: seq<nat>, j: nat): seq<nat>
    requires j < |rs| && Known(rs, q)
  {
    if q == [] then [j]
    else if Before(rs, j, q[0]) then [j] + q
    else [q[0]] + Insert(rs, q[1..], j)
  }

  lemma {:induction false} InsertMembers(rs: seq<Runtime>, q: seq<nat>, j: nat)
    requires j < |rs| && Known(rs, q)
    ensures Members(Insert(rs, q, j)) == Members(q) + {j} && Known(rs, Insert(rs, q, j))
  {
    if q != [] && !Before(rs, j, q[0]) {
      InsertMembers(rs, q[1..], j);
      assert q == [q[0]] + q[1..];
      assert Members([q[0]] + Insert(rs, q[1..], j)) == {q[0]} + Members(Insert(rs, q[1..], j));
    }
  }

  lemma TailOk(rs: seq<Runtime>, q: seq<nat>)
    requires QueueOk(rs, q) && q != []
    ensures QueueOk(rs, q[1..]) && Members(q[1..]) == Members(q) - {q[0]}
    ensures IsFirst(rs, Members(q), q[0])
  {
    assert q == [q[0]] + q[1..];
    forall a, b | 0 <= a < b < |q[1..]| ensures Before(rs, q[1..][a], q[1..][b]) {
      assert Before(rs, q[a + 1], q[b + 1]);
    }
    forall k | k in Members(q) && k != q[0] && k < |rs| ensures Before(rs, q[0], k) {
      var b :| 0 <= b < |q| && q[b] == k;
    }
  }

  /** A job that precedes everything goes in front. */
  lemma ConsOk(rs: seq<Runtime>, q: seq<nat>, j: nat)
    requires QueueOk(rs, q) && j < |rs| && j !in q && forall a :: 0 <= a < |q| ==> Before(rs, j, q[a])
    ensures QueueOk(rs, [j] + q)
  {
    var r := [j] + q;
    forall a, b | 0 <= a < b < |r| ensures r[a] != r[b] && Before(rs, r[a], r[b]) {
      if a == 0 { assert r[b] == q[b - 1]; } else { assert r[a] == q[a - 1] && r[b] == q[b - 1]; }
    }
  }

  lemma {:induction false} InsertOk(rs: seq<Runtime>, q: seq<nat>, j: nat)
    requires QueueOk(rs, q) && j < |rs| && j !in q
    ensures QueueOk(rs, Insert(rs, q, j))
  {
    if q == [] {
    } else if Before(rs, j, q[0]) {
      TailOk(rs, q);
      ConsOk(rs, q, j);
    } else {
      TailOk(rs, q);
      InsertOk(rs, q[1..], j);
      InsertMembers(rs, q[1..], j);
      var r := Insert(rs, q[1..], j);
      forall a | 0 <= a < |r| ensures Before(rs, q[0], r[a]) { assert r[a] in Members(r); }
      assert q[0] !in Members(r);
      ConsOk(rs, Insert(rs, q[1..], j), q[0]);
    }
  }

  /** `sortQueue`. */
  function Sort(rs: seq<Runtime>, q: seq<nat>): (r: seq<nat>)
    requires Known(rs, q)
    ensures Members(r) == Members(q) && Known(rs, r)
  {
    if q == [] then []
    else
      var rest := Sort(rs, q[1..]);
      assert q == [q[0]] + q[1..];
      InsertMembers(rs, rest, q[0]);
      Insert(rs, rest, q[0])
  }

  lemma {:induction false} SortOk(rs: seq<Runtime>, q: seq<nat>)
    requires NoDup(q) && Known(rs, q)
    ensures QueueOk(rs, Sort(rs, q))
  {
    if q != [] {
      assert q == [q[0]] + q[1..];
      assert NoDup(q[1..]);
      SortOk(rs, q[1..]);
      assert q[0] !in Members(Sort(rs, q[1..]));
      InsertOk(rs, Sort(rs, q[1..]), q[0]);
    }
  }

  lemma {:induction false} WithoutOk(rs: seq<Runtime>, q: seq<nat>, j: nat)
    requires QueueOk(rs, q)
    ensures QueueOk(rs, Without(q, j)) && Members(Without(q, j)) == Members(q) - {j}
  {
    WithoutMembers(q, j);
    if q != [] {
      TailOk(rs, q);
      if q[0] != j {
        WithoutMembers(q[1..], j);
        WithoutOk(rs, q[1..], j);
        var r := Without(q[1..], j);
        forall a | 0 <= a < |r| ensures Before(rs, q[0], r[a]) { assert r[a] in Members(r); }
        ConsOk(rs, r, q[0]);
      }
    }
  }

  /** The order looks at jobs and cancel requests only. */
  lemma OrderStays(rs: seq<Runtime>, qs: seq<Runtime>, q: seq<nat>)
    requires QueueOk(rs, q) && |qs| == |rs|
    requires forall j :: 0 <= j < |rs| && j in q ==>
        qs[j].job == rs[j].job && qs[j].cancelRequested == rs[j].cancelRequested
    ensures QueueOk(qs, q)
  {
    forall a, b | 0 <= a < b < |q| ensures Before(qs, q[a], q[b]) { assert Before(rs, q[a], q[b]); }
  }

  /** What `shift` takes from the sorted array is the first job of the queue. */
  lemma HeadIsFirst(rs: seq<Runtime>, q: seq<nat>)
    requires QueueOk(rs, q) && q != []
    ensures q[0] in Members(q) && First(rs, Members(q)) == q[0]
  {
    TailOk(rs, q);
    assert IsFirst(rs, Members(q), First(rs, Members(q)));
  }
}
