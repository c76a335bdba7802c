/**
 The chunk layout of a received message: `validateLayout` of `src/db/db.worker.ts`.

 A message of `total` bytes is cut into chunks of one uniform size, of which only the last may be
 shorter. The size is not transmitted; it is learned from the chunks that have arrived.
 */
module ReceiveLayout {
  import opened Wrappers
  import opened Arithmetic
  import opened Bytes

  datatype Piece = Piece(index: nat, len: nat)

  /** The piece is the one that a cut into pieces of `u` bytes has at its index. */
  ghost predicate Fits(p: Piece, total: nat, u: nat) {
    u >= 1 && Times(p.index, u) < total && p.len == Min(u, total - Times(p.index, u))
  }

  ghost predicate Bounded(p: Piece, total: nat) {
    1 <= p.len <= CHUNK_LEN && p.len <= total && p.index < total
  }

  // ----- counting chunks

  /** `Math.ceil(totalSize / uniformSize)`. */
  function ExpectedCount(total: nat, u: nat): nat
    requires u >= 1
  {
    (total + u - 1) / u
  }

  lemma CountFacts(total: nat, u: nat)
    requires u >= 1 && total >= 1
    ensures var n := ExpectedCount(total, u); n >= 1 && Times(n - 1, u) < total <= Times(n, u)
  {
    var n := ExpectedCount(total, u);
    assert total + u - 1 == n * u + (total + u - 1) % u;
    Distribute(n, -1, u);
    if n <= 0 { Monotone(n, 0, u); }
    TimesIs(n, u);
  }

  /** `n` chunks of `u` bytes, the last of which may be shorter, make up the message. */
  ghost predicate MakesUp(n: nat, total: nat, u: nat) { n >= 1 && Times(n - 1, u) < total <= Times(n, u) }

  lemma CountMakesUp(n: nat, total: nat, u: nat)
    requires u >= 1 && total >= 1
    ensures n == ExpectedCount(total, u) <==> MakesUp(n, total, u)
  {
    var m := ExpectedCount(total, u);
    CountFacts(total, u);
    if n < m { TimesMonotone(n, m - 1, u); }
    if n > m { TimesMonotone(m, n - 1, u); }
  }

  /** The test of the source: below the expected count, and full unless it is the last. */
  predicate Expected(p: Piece, total: nat, u: nat)
    requires u >= 1
  {
    var n := ExpectedCount(total, u);
    p.index < n && p.len == (if p.index == n - 1 then total - u * (n - 1) else u)
  }

  lemma ExpectedIsFits(p: Piece, total: nat, u: nat)
    requires u >= 1 && total >= 1
    ensures Expected(p, total, u) <==> Fits(p, total, u)
  {
    var n := ExpectedCount(total, u);
    CountFacts(total, u);
    TimesIs(n - 1, u);
    if p.index < n - 1 {
      TimesMonotone(p.index + 1, n - 1, u);
    } else if p.index >= n {
      TimesMonotone(n, p.index, u);
    }
  }

  /** A piece that is not the last is full. */
  lemma FullBefore(p: Piece, q: Piece, total: nat, u: nat)
    requires Fits(p, total, u) && Fits(q, total, u) && p.index < q.index
    ensures p.len == u && Times(p.index, u) + u <= Times(q.index, u)
  {
    TimesMonotone(p.index + 1, q.index, u);
  }

  // ----- lists of pieces

  ghost predicate Distinct(ps: seq<Piece>) { forall i, j :: 0 <= i < j < |ps| ==> ps[i].index != ps[j].index }

  ghost predicate Increasing(ps: seq<Piece>) { forall i, j :: 0 <= i < j < |ps| ==> ps[i].index < ps[j].index }

  ghost predicate AllFit(ps: seq<Piece>, total: nat, u: nat) { forall p :: p in ps ==> Fits(p, total, u) }

  ghost predicate AllBounded(ps: seq<Piece>, total: nat) { forall p :: p in ps ==> Bounded(p, total) }

  ghost predicate HasZero(ps: seq<Piece>) { exists p :: p in ps && p.index == 0 }

  /** Chunk zero, or any two chunks, determine the uniform size. */
  ghost predicate Determined(ps: seq<Piece>) { |ps| >= 2 || HasZero(ps) }

  /** The size the source derives: that of chunk zero, or else the largest. */
  ghost predicate Derived(ps: seq<Piece>, u: nat) {
    if HasZero(ps) then Piece(0, u) in ps
    else (exists p :: p in ps && p.len == u) && forall p :: p in ps ==> p.len <= u
  }

  /** What `validateLayout` accepts. */
  ghost predicate GoodLayout(ps: seq<Piece>, total: nat) {
    && Distinct(ps) && AllBounded(ps, total)
    && (Determined(ps) ==> exists u :: Derived(ps, u) && AllFit(ps, total, u))
    && (!Determined(ps) ==> forall p :: p in ps ==> p.len != total)
  }

  function Sum(ps: seq<Piece>): nat { if ps == [] then 0 else Sum(ps[..|ps| - 1]) + ps[|ps| - 1].len }

  /** All pieces but the last of an increasing list are full. */
  lemma {:induction false} SumIs(ps: seq<Piece>, total: nat, u: nat)
    requires ps != [] && Increasing(ps) && forall i :: 0 <= i < |ps| ==> Fits(ps[i], total, u)
    ensures Sum(ps) == Times(|ps| - 1, u) + ps[|ps| - 1].len
    decreases |ps|
  {
    if |ps| > 1 {
      var rest := ps[..|ps| - 1];
      SumIs(rest, total, u);
      FullBefore(rest[|rest| - 1], ps[|ps| - 1], total, u);
    } else {
      assert ps[..0] == [];
    }
  }

  lemma {:induction false} IndexAtLeast(ps: seq<Piece>, i: nat)
    requires Increasing(ps) && i < |ps|
    ensures ps[i].index >= i
    decreases i
  {
    if i > 0 { IndexAtLeast(ps, i - 1); }
  }

  lemma {:induction false} IndexAtMost(ps: seq<Piece>, n: nat, i: nat)
    requires Increasing(ps) && i < |ps| && (forall k :: 0 <= k < |ps| ==> ps[k].index < n)
    ensures ps[i].index + |ps| <= n + i
    decreases |ps| - i
  {
    if i + 1 < |ps| { IndexAtMost(ps, n, i + 1); }
  }

  /** The distinct bytes never exceed the total, and reach it exactly when every chunk is there. */
  lemma SumBound(ps: seq<Piece>, total: nat, u: nat)
    requires Increasing(ps) && total >= 1 && u >= 1 && forall i :: 0 <= i < |ps| ==> Fits(ps[i], total, u)
    ensures Sum(ps) <= total && |ps| <= ExpectedCount(total, u)
    ensures Sum(ps) == total <==> |ps| == ExpectedCount(total, u)
    ensures |ps| == ExpectedCount(total, u) ==> forall i :: 0 <= i < |ps| ==> ps[i].index == i
  {
    var n := ExpectedCount(total, u);
    CountFacts(total, u);
    forall k | 0 <= k < |ps| ensures ps[k].index < n { ExpectedIsFits(ps[k], total, u); }
    if ps != [] {
      var last := ps[|ps| - 1];
      SumIs(ps, total, u);
      IndexAtLeast(ps, |ps| - 1);
      IndexAtMost(ps, n, 0);
      TimesMonotone(|ps| - 1, last.index, u);
      if |ps| == n {
        forall i | 0 <= i < |ps| ensures ps[i].index == i { IndexAtLeast(ps, i); IndexAtMost(ps, n, i); }
      } else {
        TimesMonotone(|ps|, n - 1, u);
      }
    }
  }

  // ----- sorting by index

  ghost predicate NonDecreasing(ps: seq<Piece>) { forall i, j :: 0 <= i < j < |ps| ==> ps[i].index <= ps[j].index }

  function Insert(ps: seq<Piece>, p: Piece): (r: seq<Piece>)
    ensures |r| == |ps| + 1
  {
    if ps == [] || ps[|ps| - 1].index <= p.index then ps + [p]
    else Insert(ps[..|ps| - 1], p) + [ps[|ps| - 1]]
  }

  function Sort(ps: seq<Piece>): (r: seq<Piece>)
    ensures |r| == |ps|
  {
    if ps == [] then [] else Insert(Sort(ps[..|ps| - 1]), ps[|ps| - 1])
  }

  lemma {:induction false} InsertMembers(ps: seq<Piece>, p: Piece, x: Piece)
    ensures x in Insert(ps, p) <==> x in ps || x == p
    decreases |ps|
  {
    if ps != [] && ps[|ps| - 1].index > p.index {
      InsertMembers(ps[..|ps| - 1], p, x);
      assert ps == ps[..|ps| - 1] + [ps[|ps| - 1]];
    }
  }

  lemma {:induction false} SortMembers(ps: seq<Piece>, x: Piece)
    ensures x in Sort(ps) <==> x in ps
    decreases |ps|
  {
    if ps != [] {
      SortMembers(ps[..|ps| - 1], x);
      InsertMembers(Sort(ps[..|ps| - 1]), ps[|ps| - 1], x);
      assert ps == ps[..|ps| - 1] + [ps[|ps| - 1]];
    }
  }

  lemma {:induction false} InsertBelow(ps: seq<Piece>, p: Piece, b: nat)
    requires p.index <= b && forall i :: 0 <= i < |ps| ==> ps[i].index <= b
    ensures forall i :: 0 <= i < |Insert(ps, p)| ==> Insert(ps, p)[i].index <= b
    decreases |ps|
  {
    if ps != [] && ps[|ps| - 1].index > p.index { InsertBelow(ps[..|ps| - 1], p, b); }
  }

  /** No piece of the list has the index of `p`. */
  ghost predicate New(ps: seq<Piece>, p: Piece) { forall i :: 0 <= i < |ps| ==> ps[i].index != p.index }

  lemma NewAppend(q: seq<Piece>, x: Piece, p: Piece)
    ensures New(q + [x], p) <==> New(q, p) && x.index != p.index
  {
    var r := q + [x];
    assert r[|q|] == x && forall i :: 0 <= i < |q| ==> r[i] == q[i];
  }

  lemma SumAppend(q: seq<Piece>, p: Piece)
    ensures Sum(q + [p]) == Sum(q) + p.len
  {
    assert (q + [p])[..|q|] == q;
  }

  /** Adding a largest piece keeps a list increasing if its index is new. */
  lemma LastIncreasing(q: seq<Piece>, last: Piece)
    requires forall i :: 0 <= i < |q| ==> q[i].index <= last.index
    ensures Increasing(q + [last]) <==> Increasing(q) && New(q, last)
  {
    var r := q + [last];
    assert r[|q|] == last && forall i :: 0 <= i < |q| ==> r[i] == q[i];
  }

  lemma DistinctAppend(q: seq<Piece>, last: Piece)
    ensures Distinct(q + [last]) <==> Distinct(q) && New(q, last)
  {
    var r := q + [last];
    assert r[|q|] == last && forall i :: 0 <= i < |q| ==> r[i] == q[i];
  }

  lemma {:induction false} InsertSum(ps: seq<Piece>, p: Piece)
    ensures Sum(Insert(ps, p)) == Sum(ps) + p.len
    decreases |ps|
  {
    SumAppend(ps, p);
    if ps != [] && ps[|ps| - 1].index > p.index {
      InsertSum(ps[..|ps| - 1], p);
      SumAppend(Insert(ps[..|ps| - 1], p), ps[|ps| - 1]);
    }
  }

  lemma LastNonDecreasing(q: seq<Piece>, last: Piece)
    requires NonDecreasing(q) && forall i :: 0 <= i < |q| ==> q[i].index <= last.index
    ensures NonDecreasing(q + [last])
  {}

  lemma {:induction false} InsertOrder(ps: seq<Piece>, p: Piece)
    requires NonDecreasing(ps)
    ensures NonDecreasing(Insert(ps, p))
    decreases |ps|
  {
    if ps != [] && ps[|ps| - 1].index > p.index {
      var rest, last := ps[..|ps| - 1], ps[|ps| - 1];
      InsertOrder(rest, p);
      InsertBelow(rest, p, last.index);
      LastNonDecreasing(Insert(rest, p), last);
    } else {
      LastNonDecreasing(ps, p);
    }
  }

  lemma {:induction false} InsertNew(ps: seq<Piece>, p: Piece, x: Piece)
    ensures New(Insert(ps, p), x) <==> New(ps, x) && p.index != x.index
    decreases |ps|
  {
    if ps == [] || ps[|ps| - 1].index <= p.index {
      NewAppend(ps, p, x);
    } else {
      var rest, last := ps[..|ps| - 1], ps[|ps| - 1];
      InsertNew(rest, p, x);
      NewAppend(Insert(rest, p), last, x);
      NewAppend(rest, last, x);
      assert ps == rest + [last];
    }
  }

  lemma {:induction false} InsertIncreasing(ps: seq<Piece>, p: Piece)
    requires NonDecreasing(ps)
    ensures Increasing(Insert(ps, p)) <==> Increasing(ps) && New(ps, p)
    decreases |ps|
  {
    if ps == [] || ps[|ps| - 1].index <= p.index {
      LastIncreasing(ps, p);
    } else {
      var rest, last := ps[..|ps| - 1], ps[|ps| - 1];
      InsertIncreasing(rest, p);
      InsertBelow(rest, p, last.index);
      var q := Insert(rest, p);
      assert Insert(ps, p) == q + [last] && ps == rest + [last];
      LastIncreasing(q, last);
      LastIncreasing(rest, last);
      InsertNew(rest, p, last);
      NewAppend(rest, last, p);
    }
  }

  lemma {:induction false} SortNew(ps: seq<Piece>, x: Piece)
    ensures New(Sort(ps), x) <==> New(ps, x)
    decreases |ps|
  {
    if ps != [] {
      var rest, last := ps[..|ps| - 1], ps[|ps| - 1];
      SortNew(rest, x);
      InsertNew(Sort(rest), last, x);
      NewAppend(rest, last, x);
      assert ps == rest + [last];
    }
  }

  lemma {:induction false} SortOrder(ps: seq<Piece>)
    ensures NonDecreasing(Sort(ps)) && Sum(Sort(ps)) == Sum(ps)
    decreases |ps|
  {
    if ps != [] {
      SortOrder(ps[..|ps| - 1]);
      InsertOrder(Sort(ps[..|ps| - 1]), ps[|ps| - 1]);
      InsertSum(Sort(ps[..|ps| - 1]), ps[|ps| - 1]);
    }
  }

  /** A sorted list has no two neighbours with the same index exactly if no index is repeated at all. */
  lemma {:induction false} SortIncreasing(ps: seq<Piece>)
    ensures Increasing(Sort(ps)) <==> Distinct(ps)
    decreases |ps|
  {
    if ps != [] {
      var rest, last := ps[..|ps| - 1], ps[|ps| - 1];
      calc <==> {
        Increasing(Sort(ps));
        { SortOrder(rest); InsertIncreasing(Sort(rest), last); }
        Increasing(Sort(rest)) && New(Sort(rest), last);
        { SortIncreasing(rest); SortNew(rest, last); }
        Distinct(rest) && New(rest, last);
        { DistinctAppend(rest, last); }
        Distinct(rest + [last]);
        { assert ps == rest + [last]; }
        Distinct(ps);
      }
    }
  }

  // ----- the loops of `validateLayout`

  datatype Progress = Progress(savedSize: nat, complete: bool)

  /** The same pieces, in another order. */
  lemma SortSame(ps: seq<Piece>, total: nat, u: nat)
    ensures var s := Sort(ps);
            && (HasZero(s) <==> HasZero(ps)) && (Determined(s) <==> Determined(ps))
                && (Derived(s, u) <==> Derived(ps, u))
            && (AllFit(s, total, u) <==> AllFit(ps, total, u)) && (AllBounded(s, total) <==> AllBounded(ps, total))
  {
    forall x ensures x in Sort(ps) <==> x in ps { SortMembers(ps, x); }
  }

  lemma {:induction false} PrefixSum(ps: seq<Piece>, n: nat)
    requires n <= |ps|
    ensures Sum(ps[..n]) <= Sum(ps)
    decreases |ps| - n
  {
    if n < |ps| {
      PrefixSum(ps, n + 1);
      assert ps[..n + 1] == ps[..n] + [ps[n]];
      SumAppend(ps[..n], ps[n]);
    } else {
      assert ps[..n] == ps;
    }
  }

  lemma SumStep(ps: seq<Piece>, i: nat)
    requires i < |ps|
    ensures Sum(ps[..i + 1]) == Sum(ps[..i]) + ps[i].len && Sum(ps[..i + 1]) <= Sum(ps)
  {
    assert ps[..i + 1] == ps[..i] + [ps[i]];
    SumAppend(ps[..i], ps[i]);
    PrefixSum(ps, i + 1);
  }

  lemma NeighboursIncrease(ps: seq<Piece>)
    requires NonDecreasing(ps) && forall k :: 0 < k < |ps| ==> ps[k - 1].index != ps[k].index
    ensures Increasing(ps)
  {
    forall i, j | 0 <= i < j < |ps| ensures ps[i].index < ps[j].index { assert ps[j - 1].index != ps[j].index; }
  }

  predicate BoundedPiece(p: Piece, total: nat)
    ensures BoundedPiece(p, total) <==> Bounded(p, total)
  {
    1 <= p.len && p.len <= CHUNK_LEN && p.len <= total && p.index < total
  }

  method ScanSizes(ordered: seq<Piece>, total: nat) returns (saved: Option<nat>)
    requires NonDecreasing(ordered)
    ensures saved.Some? <==>
        (forall i :: 0 <= i < |ordered| ==> Bounded(ordered[i], total)) && Increasing(ordered) && Sum(ordered) <= total
    ensures saved.Some? ==> saved.value == Sum(ordered)
  {
    var savedSize := 0;
    for i := 0 to |ordered|
      invariant savedSize == Sum(ordered[..i]) <= total
      invariant forall k :: 0 <= k < i ==> Bounded(ordered[k], total)
      invariant forall k :: 0 < k < i ==> ordered[k - 1].index != ordered[k].index
    {
      if !BoundedPiece(ordered[i], total) || (i > 0 && ordered[i - 1].index == ordered[i].index) { return None; }
      SumStep(ordered, i);
      savedSize := savedSize + ordered[i].len;
      if savedSize > total { return None; }
    }
    assert ordered[..|ordered|] == ordered;
    NeighboursIncrease(ordered);
    return Some(savedSize);
  }

  /** The size of chunk zero, or else the largest of two or more. */
  method DeriveSize(ordered: seq<Piece>) returns (u: Option<nat>)
    requires Increasing(ordered)
    ensures u.Some? <==> Determined(ordered)
    ensures u.Some? ==> Derived(ordered, u.value)
  {
    for i := 0 to |ordered|
      invariant forall k :: 0 <= k < i ==> ordered[k].index != 0
    {
      if ordered[i].index == 0 {
        assert ordered[i] in ordered;
        return Some(ordered[i].len);
      }
    }
    assert !HasZero(ordered);
    if |ordered| < 2 { return None; }
    var largest := 0;
    for i := 0 to |ordered|
      invariant forall k :: 0 <= k < i ==> ordered[k].len <= largest
      invariant i > 0 ==> exists k :: 0 <= k < i && ordered[k].len == largest
    {
      if i == 0 || ordered[i].len > largest { largest := ordered[i].len; }
    }
    var k :| 0 <= k < |ordered| && ordered[k].len == largest;
    assert ordered[k] in ordered;
    return Some(largest);
  }

  method CheckPieces(ordered: seq<Piece>, total: nat, u: nat) returns (ok: bool)
    requires u >= 1 && total >= 1
    ensures ok <==> forall i :: 0 <= i < |ordered| ==> Fits(ordered[i], total, u)
  {
    for i := 0 to |ordered|
      invariant forall k :: 0 <= k < i ==> Fits(ordered[k], total, u)
    {
      ExpectedIsFits(ordered[i], total, u);
      if !Expected(ordered[i], total, u) { return false; }
    }
    return true;
  }

  method NoGap(ordered: seq<Piece>) returns (ok: bool)
    ensures ok <==> forall i :: 0 <= i < |ordered| ==> ordered[i].index == i
  {
    for i := 0 to |ordered|
      invariant forall k :: 0 <= k < i ==> ordered[k].index == k
    {
      if ordered[i].index != i { return false; }
    }
    return true;
  }

  /** The layout in sorted order. */
  ghost predicate GoodSorted(s: seq<Piece>, total: nat, u: nat) {
    && Increasing(s) && AllBounded(s, total)
    && (Determined(s) ==> Derived(s, u) && AllFit(s, total, u))
    && (!Determined(s) ==> Sum(s) != total)
  }

  lemma DerivedUnique(ps: seq<Piece>, u: nat, v: nat)
    requires Derived(ps, u) && Derived(ps, v) && Distinct(ps)
    ensures u == v
  {
    if HasZero(ps) {
      var i :| 0 <= i < |ps| && ps[i] == Piece(0, u);
      var j :| 0 <= j < |ps| && ps[j] == Piece(0, v);
    }
  }

  lemma SingleSum(ps: seq<Piece>, total: nat)
    requires !Determined(ps) && total >= 1
    ensures Sum(ps) == total <==> exists p :: p in ps && p.len == total
  {
    if |ps| == 1 {
      assert ps[..0] == [];
      assert ps[0] in ps;
    }
  }

  lemma EveryPiece(s: seq<Piece>, total: nat, u: nat)
    ensures AllBounded(s, total) <==> forall i :: 0 <= i < |s| ==> Bounded(s[i], total)
    ensures AllFit(s, total, u) <==> forall i :: 0 <= i < |s| ==> Fits(s[i], total, u)
  {
    assert forall i :: 0 <= i < |s| ==> s[i] in s;
  }

  /** Sorting loses nothing that the layout depends on. */
  lemma SortedIsGood(ps: seq<Piece>, total: nat, u: nat)
    requires total >= 1 && GoodSorted(Sort(ps), total, u)
    ensures GoodLayout(ps, total) && (Determined(ps) ==> Derived(ps, u) && AllFit(ps, total, u))
  {
    SortSame(ps, total, u);
    SortOrder(ps);
    SortIncreasing(ps);
    if !Determined(ps) { SingleSum(ps, total); }
  }

  lemma GoodIsSorted(ps: seq<Piece>, total: nat, u: nat)
    requires total >= 1 && GoodLayout(ps, total) && (Determined(ps) ==> Derived(ps, u))
    ensures GoodSorted(Sort(ps), total, u)
  {
    SortSame(ps, total, u);
    SortOrder(ps);
    SortIncreasing(ps);
    if Determined(ps) {
      var v :| Derived(ps, v) && AllFit(ps, total, v);
      DerivedUnique(ps, u, v);
    } else {
      SingleSum(ps, total);
    }
  }

  lemma DerivedExists(ps: seq<Piece>, total: nat)
    requires GoodLayout(ps, total) && Determined(ps)
    ensures exists u :: Derived(ps, u)
  {
    var u :| Derived(ps, u) && AllFit(ps, total, u);
  }

  /** Sizes of a good layout add up to at most the total. */
  lemma GoodSum(s: seq<Piece>, total: nat, u: nat)
    requires total >= 1 && GoodSorted(s, total, u)
    ensures Sum(s) <= total
  {
    EveryPiece(s, total, u);
    if Determined(s) {
      assert s[0] in s;
      SumBound(s, total, u);
    } else if |s| == 1 {
      assert s[..0] == [];
    }
  }

  method ValidateLayout(records: seq<Piece>, total: nat) returns (r: Option<Progress>, ghost u: nat)
    requires total >= 1
    ensures r.Some? <==> GoodLayout(records, total)
    ensures r.Some? ==> r.value.savedSize == Sum(records) <= total
    ensures r.Some? && Determined(records) ==>
              && u >= 1 && Derived(records, u) && AllFit(records, total, u)
              && (r.value.complete <==> |records| == ExpectedCount(total, u))
                  && (r.value.complete <==> r.value.savedSize == total)
    ensures r.Some? && !Determined(records) ==> !r.value.complete
  {
    var ordered := Sort(records);
    SortOrder(records);
    SortSame(records, total, 0);
    u := 0;
    ghost var good := GoodLayout(records, total);
    if good {
      if Determined(records) {
        DerivedExists(records, total);
        u :| Derived(records, u);
      }
      GoodIsSorted(records, total, u);
      GoodSum(ordered, total, u);
      EveryPiece(ordered, total, u);
    }
    var saved := ScanSizes(ordered, total);
    if saved.None? { return None, u; }
    var size := DeriveSize(ordered);
    if size.Some? {
      u := size.value;
      r := CheckDetermined(records, ordered, total, size.value, saved.value);
    } else {
      EveryPiece(ordered, total, u);
      if saved.value != total { SortedIsGood(records, total, u); }
      r := if saved.value == total then None else Some(Progress(saved.value, false));
    }
  }

  method CheckDetermined(ghost records: seq<Piece>, ordered: seq<Piece>, total: nat, u: nat, saved: nat)
      returns (r: Option<Progress>)
    requires total >= 1 && ordered == Sort(records) && Increasing(ordered)
    requires forall i :: 0 <= i < |ordered| ==> Bounded(ordered[i], total)
    requires Determined(ordered) && Derived(ordered, u) && saved == Sum(ordered) == Sum(records)
    ensures r.Some? <==> GoodLayout(records, total)
    ensures r.Some? ==>
              && r.value.savedSize == saved && u >= 1 && Derived(records, u) && AllFit(records, total, u)
              && (r.value.complete <==> |records| == ExpectedCount(total, u)) && (r.value.complete <==> saved == total)
  {
    DerivedPositive(ordered, total, u);
    SortSame(records, total, u);
    EveryPiece(ordered, total, u);
    if GoodLayout(records, total) { GoodIsSorted(records, total, u); }
    var ok := CheckPieces(ordered, total, u);
    if !ok { return None; }
    SortedIsGood(records, total, u);
    SumBound(ordered, total, u);
    var noGap := NoGap(ordered);
    var complete := saved == total && |ordered| == ExpectedCount(total, u) && noGap;
    if saved == total && !complete { return None; }
    return Some(Progress(saved, complete));
  }

  lemma DerivedPositive(ps: seq<Piece>, total: nat, u: nat)
    requires Derived(ps, u) && forall i :: 0 <= i < |ps| ==> Bounded(ps[i], total)
    ensures u >= 1
  {
    if HasZero(ps) {
      var i :| 0 <= i < |ps| && ps[i] == Piece(0, u);
    } else {
      var p :| p in ps && p.len == u;
      var i :| 0 <= i < |ps| && ps[i] == p;
    }
  }
}
