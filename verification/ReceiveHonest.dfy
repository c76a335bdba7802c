/**
 Receiving the chunks of a sender that cut its message uniformly: what is accepted, when the places of
 chunks in the file are right, and that the finished file is then the message.
 */
module ReceiveHonest {
  import opened Wrappers
  import opened Arithmetic
  import opened Bytes
  import opened ReceiveLayout
  import opened Reassembly
  import opened ReceiveBooks

  /** Any distinct pieces of a uniform cut are a good layout, from which the size of the cut is derived. */
  lemma CutIsGood(ps: seq<Piece>, total: nat, u: nat)
    requires 1 <= u <= total && u <= CHUNK_LEN && Distinct(ps) && AllFit(ps, total, u)
    ensures GoodLayout(ps, total) && (Determined(ps) ==> Derived(ps, u))
  {
    forall p | p in ps ensures Bounded(p, total) { PieceBounded(p, total, u); }
    if HasZero(ps) {
      var z :| z in ps && z.index == 0;
      assert z == Piece(0, u);
    } else if |ps| >= 2 {
      assert ps[0] in ps && ps[1] in ps;
      TwoGiveUniform(ps[0], ps[1], total, u);
      forall p | p in ps ensures p.len <= u { assert Fits(p, total, u); }
    } else {
      forall p | p in ps ensures p.len != total { TimesMonotone(1, p.index, u); }
    }
  }

  lemma PieceBounded(p: Piece, total: nat, u: nat)
    requires 1 <= u <= CHUNK_LEN && Fits(p, total, u)
    ensures Bounded(p, total)
  {
    IndexBelowStart(p.index, u);
  }

  lemma {:induction false} IndexBelowStart(i: nat, u: nat)
    requires u >= 1
    ensures i <= Times(i, u)
  {
    if i > 0 { IndexBelowStart(i - 1, u); }
  }

  /** The part of `message` in chunk `i` of a cut into chunks of `u` bytes. */
  ghost function PartAt(message: Bytes, u: nat, i: nat): Bytes
    requires Times(i, u) <= |message|
  {
    message[Times(i, u)..Times(i, u) + Min(u, |message| - Times(i, u))]
  }

  /** What the sender puts into a chunk: its part of a message of at most 10 GiB, cut into chunks of `u` bytes. */
  ghost predicate CutFrom(c: Chunk, m: Manifest, message: Bytes, u: nat) {
    && c.schemaVersion == 1 && c.manifest == m && 1 <= m.messageType <= 64
    && m.totalSize == |message| && 1 <= |message| <= MAX_MESSAGE_SIZE && 1 <= u <= CHUNK_LEN
    && Times(c.index, u) < |message| && c.data == PartAt(message, u, c.index) && c.realLen == |c.data|
  }

  /** Such a chunk is in bounds, up to the largest chunk and the largest message. */
  lemma CutInBounds(c: Chunk, m: Manifest, message: Bytes, u: nat)
    requires CutFrom(c, m, message, u)
    ensures InBounds(c) && Fits(c.Place(), |message|, u)
  {
    PieceBounded(c.Place(), |message|, u);
  }

  ghost predicate AllCutFrom(events: seq<Event>, m: Manifest, message: Bytes, u: nat) {
    forall k :: 0 <= k < |events| && events[k].Arrive? ==> CutFrom(events[k].chunk, m, message, u)
  }

  /** Chunk `i` arrived at least once and its commit went through. */
  ghost predicate Arrives(events: seq<Event>, i: nat) {
    exists k :: 0 <= k < |events| && ArrivesAt(events[k], i)
  }

  predicate ArrivesAt(e: Event, i: nat) { e.Arrive? && e.chunk.index == i && e.env.commit == Commits }

  /** What the books of such a message hold. */
  ghost predicate Honest(b: Books, m: Manifest, message: Bytes, u: nat) {
    && (b.manifest.Some? ==> b.manifest.value == m) && (b.manifest.None? ==> b.pieces == [] && b.cut.None?)
    && Distinct(b.pieces) && AllFit(b.pieces, |message|, u) && RecordsOk(b.pieces, map[], b.content)
    && (forall i :: i in b.content ==> Times(i, u) <= |message| && b.content[i] == PartAt(message, u, i))
    && (b.handle.Some? ==> b.handle.value.total == |message| && AllFit(b.handle.value.counted, |message|, u))
  }

  /** Whether the chunk is recorded already can be read off the content. */
  lemma RecordedIndex(b: Books, i: nat)
    requires RecordsOk(b.pieces, map[], b.content)
    ensures HasIndex(b.pieces, i) <==> i in b.content
  {
    if HasIndex(b.pieces, i) { var k :| 0 <= k < |b.pieces| && b.pieces[k].index == i; }
  }

  /** Every chunk of the cut that is not recorded yet is accepted as new. */
  lemma CutIsNew(b: Books, c: Chunk, m: Manifest, message: Bytes, u: nat)
    requires 1 <= u <= |message| && u <= CHUNK_LEN && Honest(b, m, message, u) && CutFrom(c, m, message, u)
    ensures IsNew(b.manifest, b.pieces, c) <==> c.index !in b.content
  {
    RecordedIndex(b, c.index);
    CutInBounds(c, m, message, u);
    if c.index !in b.content {
      forall k | 0 <= k < |b.pieces| ensures b.pieces[k].index != c.index { assert b.pieces[k].index in b.content; }
      DistinctAppend(b.pieces, c.Place());
      CutIsGood(b.pieces + [c.Place()], |message|, u);
    }
  }

  lemma HonestCounts(b: Books, c: Chunk, env: Env, m: Manifest, message: Bytes, u: nat)
    requires Honest(b, m, message, u) && CutFrom(c, m, message, u) && Counting(b.handle, c, env).Some?
    ensures var h := Counting(b.handle, c, env).value; h.total == |message| && AllFit(h.counted, |message|, u)
  {}

  lemma HonestRecorded(b: Books, c: Chunk, env: Env, m: Manifest, message: Bytes, u: nat)
    requires Honest(b, m, message, u) && CutFrom(c, m, message, u) && c.index !in b.content
    ensures Honest(Recorded(b, c, env), m, message, u)
  {
    forall k | 0 <= k < |b.pieces| ensures b.pieces[k].index != c.index { assert b.pieces[k].index in b.content; }
    DistinctAppend(b.pieces, c.Place());
    RecordsMore(b.pieces, map[], b.content, c.Place(), c.data);
  }

  lemma HonestHandle(b: Books, handle: Option<Handle>, m: Manifest, message: Bytes, u: nat)
    requires Honest(b, m, message, u)
    requires handle.Some? ==> handle.value.total == |message| && AllFit(handle.value.counted, |message|, u)
    ensures Honest(b.(handle := handle), m, message, u)
  {}

  lemma HonestArrival(b: Books, c: Chunk, env: Env, m: Manifest, message: Bytes, u: nat)
    requires Honest(b, m, message, u) && CutFrom(c, m, message, u) && c.index !in b.content
    ensures Honest(NewArrival(b, c, env), m, message, u)
  {
    HonestRecorded(b, c, env, m, message, u);
    HonestHandle(b, Counting(b.handle, c, env), m, message, u);
    HonestHandle(b, None, m, message, u);
  }

  /** Every chunk of the cut fits, so the books hold exactly what was committed. */
  lemma HonestStep(b: Books, e: Event, m: Manifest, message: Bytes, u: nat)
    requires 1 <= u <= |message| && u <= CHUNK_LEN && Honest(b, m, message, u)
    requires e.Arrive? ==> CutFrom(e.chunk, m, message, u)
    ensures Honest(Accept(b, e), m, message, u)
  {
    match e
    case Stop => HonestHandle(b, None, m, message, u);
    case Read(_, _, _) =>
    case Arrive(c, env) =>
      CutIsNew(b, c, m, message, u);
      if c.index !in b.content { HonestArrival(b, c, env, m, message, u); }
  }

  lemma HonestContent(b: Books, e: Event, m: Manifest, message: Bytes, u: nat, i: nat)
    requires 1 <= u <= |message| && u <= CHUNK_LEN && Honest(b, m, message, u)
    requires e.Arrive? ==> CutFrom(e.chunk, m, message, u)
    ensures i in Accept(b, e).content <==> i in b.content || ArrivesAt(e, i)
  {
    if e.Arrive? { CutIsNew(b, e.chunk, m, message, u); }
  }

  lemma ArrivesMore(events: seq<Event>, i: nat)
    requires events != []
    ensures Arrives(events, i) <==> Arrives(events[..|events| - 1], i) || ArrivesAt(events[|events| - 1], i)
  {
    var rest := events[..|events| - 1];
    if Arrives(rest, i) {
      var k :| 0 <= k < |rest| && ArrivesAt(rest[k], i);
      assert events[k] == rest[k];
    }
    if Arrives(events, i) {
      var k :| 0 <= k < |events| && ArrivesAt(events[k], i);
      if k < |rest| { assert rest[k] == events[k]; }
    }
  }

  /** No chunk of the cut is ever refused. */
  lemma HonestFitting(events: seq<Event>, c: Chunk, m: Manifest, message: Bytes, u: nat)
    requires u <= |message| && AllCutFrom(events, m, message, u) && CutFrom(c, m, message, u)
    ensures var b := Accepted(events); Fitting(b.manifest, b.pieces, c)
  {
    HonestRun(events, m, message, u);
    CutIsNew(Accepted(events), c, m, message, u);
    RecordedIndex(Accepted(events), c.index);
    CutInBounds(c, m, message, u);
  }

  lemma {:induction false} HonestRun(events: seq<Event>, m: Manifest, message: Bytes, u: nat)
    requires 1 <= u <= |message| && u <= CHUNK_LEN && AllCutFrom(events, m, message, u)
    ensures Honest(Accepted(events), m, message, u)
    ensures forall i: nat :: i in Accepted(events).content <==> Arrives(events, i)
    decreases |events|
  {
    if events != [] {
      var rest, last := events[..|events| - 1], events[|events| - 1];
      HonestRun(rest, m, message, u);
      HonestStep(Accepted(rest), last, m, message, u);
      forall i: nat ensures i in Accepted(events).content <==> Arrives(events, i) {
        HonestContent(Accepted(rest), last, m, message, u, i);
        ArrivesMore(events, i);
      }
    }
  }

  // ----- the places of chunks

  /** A handle takes the short last chunk for a full one: it counts it first, and then again. */
  ghost predicate Mislearns(b: Books, e: Event, u: nat) {
    e.Arrive? && IsNew(b.manifest, b.pieces, e.chunk) && e.chunk.toFile && Counting(b.handle, e.chunk, e.env).Some? &&
    ShortTwice(Counting(b.handle, e.chunk, e.env).value.counted, u)
  }

  ghost predicate NeverMislearns(events: seq<Event>, u: nat) {
    forall k: nat :: k < |events| ==> !Mislearns(Accepted(events[..k]), events[k], u)
  }

  /**
   The condition is exact: a handle that knows a size writes a chunk other than the first one to its own
   place if and only if it has not taken the short last chunk for a full one.
   */
  lemma WrittenRightExactly(b: Books, c: Chunk, env: Env, m: Manifest, message: Bytes, u: nat)
    requires 1 <= u <= |message| && Honest(b, m, message, u) && CutFrom(c, m, message, u)
    requires IsNew(b.manifest, b.pieces, c) && Writes(b.handle, c, env) && c.index >= 1
    ensures Times(c.index, Counting(b.handle, c, env).value.Size()) == Times(c.index, u) <==>
            !Mislearns(b, Arrive(c, env), u)
  {
    var h := Counting(b.handle, c, env).value;
    HonestCounts(b, c, env, m, message, u);
    LearnedExactly(h.counted, |message|, u);
    if h.Size() < u { TimesStrict(c.index, h.Size(), u); }
    if h.Size() > u { TimesStrict(c.index, u, h.Size()); }
  }

  /** Under it, whatever was placed so far was placed by the size of the cut. */
  ghost predicate CutRight(b: Books, u: nat) { b.cut.Some? ==> b.cut.value == u }

  /** A handle that writes knows the size of the cut. */
  lemma HonestSize(b: Books, c: Chunk, env: Env, m: Manifest, message: Bytes, u: nat)
    requires 1 <= u <= |message| && Honest(b, m, message, u) && CutFrom(c, m, message, u) && Writes(b.handle, c, env)
    requires !ShortTwice(Counting(b.handle, c, env).value.counted, u)
    ensures Counting(b.handle, c, env).value.Size() == u
  {
    HonestCounts(b, c, env, m, message, u);
    LearnedExactly(Counting(b.handle, c, env).value.counted, |message|, u);
  }

  lemma HonestCut(b: Books, c: Chunk, env: Env, u: nat)
    requires CutRight(b, u) && (Writes(b.handle, c, env) ==> Counting(b.handle, c, env).value.Size() == u)
    ensures CutRight(NewArrival(b, c, env), u)
  {}

  lemma HonestSafeArrival(b: Books, c: Chunk, env: Env, m: Manifest, message: Bytes, u: nat)
    requires 1 <= u <= |message| && Honest(b, m, message, u) && CutRight(b, u) && CutFrom(c, m, message, u)
    requires Writes(b.handle, c, env) ==> Counting(b.handle, c, env).value.Size() == u
    ensures Safe(b, Arrive(c, env))
  {}

  lemma HonestSafeRead(b: Books, m: Manifest, message: Bytes, u: nat)
    requires 1 <= u <= |message| && u <= CHUNK_LEN && Honest(b, m, message, u) && IsComplete(b)
    ensures CutRight(AfterRead(b), u)
  {
    CutIsGood(b.pieces, |message|, u);
    DerivedUnique(b.pieces, AfterRead(b).cut.value, u);
  }

  lemma HonestSafeStep(b: Books, e: Event, m: Manifest, message: Bytes, u: nat)
    requires 1 <= u <= |message| && u <= CHUNK_LEN && Honest(b, m, message, u) && CutRight(b, u)
    requires (e.Arrive? ==> CutFrom(e.chunk, m, message, u)) && !Mislearns(b, e, u)
    ensures Safe(b, e) && CutRight(Accept(b, e), u)
  {
    match e
    case Stop =>
    case Read(_, _, _) => if IsComplete(b) { HonestSafeRead(b, m, message, u); }
    case Arrive(c, env) =>
      if IsNew(b.manifest, b.pieces, c) {
        if Writes(b.handle, c, env) { HonestSize(b, c, env, m, message, u); }
        HonestSafeArrival(b, c, env, m, message, u);
        HonestCut(b, c, env, u);
      }
  }

  /** With failed commits too, a run in which no handle mislearns is safe. */
  lemma {:induction false} HonestSafe(events: seq<Event>, m: Manifest, message: Bytes, u: nat)
    requires 1 <= u <= |message| && u <= CHUNK_LEN && AllCutFrom(events, m, message, u) && NeverMislearns(events, u)
    ensures SafeRun(events) && CutRight(Accepted(events), u)
    decreases |events|
  {
    if events != [] {
      var rest, last := events[..|events| - 1], events[|events| - 1];
      assert NeverMislearns(rest, u) by {
        forall k: nat | k < |rest| ensures !Mislearns(Accepted(rest[..k]), rest[k], u) {
          assert rest[..k] == events[..k] && rest[k] == events[k];
        }
      }
      HonestSafe(rest, m, message, u);
      HonestRun(rest, m, message, u);
      assert !Mislearns(Accepted(events[..|rest|]), events[|rest|], u);
      HonestSafeStep(Accepted(rest), last, m, message, u);
      SafeRunMore(events);
    }
  }

  // ----- the message

  lemma HasIndexWithout(ps: seq<Piece>, k: nat, i: nat)
    requires k < |ps| && HasIndex(ps, i) && ps[k].index != i
    ensures HasIndex(ps[..k] + ps[k + 1..], i)
  {
    var rest := ps[..k] + ps[k + 1..];
    var j :| 0 <= j < |ps| && ps[j].index == i;
    if j < k { assert rest[j] == ps[j]; } else { assert rest[j - 1] == ps[j]; }
  }

  /** A list that has every index below `n` has at least `n` entries. */
  lemma {:induction false} CoversCount(ps: seq<Piece>, n: nat)
    requires forall i: nat :: i < n ==> HasIndex(ps, i)
    ensures |ps| >= n
    decreases n
  {
    if n > 0 {
      assert HasIndex(ps, n - 1);
      var k :| 0 <= k < |ps| && ps[k].index == n - 1;
      var rest := ps[..k] + ps[k + 1..];
      forall i: nat | i < n - 1 ensures HasIndex(rest, i) { HasIndexWithout(ps, k, i); }
      CoversCount(rest, n - 1);
    }
  }

  lemma AtMostCount(ps: seq<Piece>, total: nat, u: nat, n: nat)
    requires total >= 1 && u >= 1 && Distinct(ps) && AllFit(ps, total, u) && MakesUp(n, total, u)
    ensures |ps| <= n
  {
    var s := Sort(ps);
    SortSame(ps, total, u);
    SortIncreasing(ps);
    EveryPiece(s, total, u);
    SumBound(s, total, u);
    CountMakesUp(n, total, u);
  }

  /** With every chunk of the cut accepted, the count is right. */
  lemma HonestCount(b: Books, m: Manifest, message: Bytes, u: nat, n: nat)
    requires 1 <= u <= |message| && Honest(b, m, message, u) && MakesUp(n, |message|, u)
    requires forall i: nat :: i < n ==> i in b.content
    ensures |b.pieces| == n && forall i: nat :: i in b.content <==> i < n
  {
    forall i: nat | i < n ensures HasIndex(b.pieces, i) { RecordedIndex(b, i); }
    CoversCount(b.pieces, n);
    AtMostCount(b.pieces, |message|, u, n);
    forall i: nat | i in b.content ensures i < n {
      AcceptedFits(b.pieces, map[], b.content, |message|, u, i);
      if i >= n { TimesMonotone(n, i, u); }
    }
  }

  /**
   For every message, every uniform cut and every order of arrivals, with duplicates, stops, crashes,
   failed commits and reads in between, as long as no handle takes the short last chunk for a full one:
   the run is safe, and once every chunk was committed, the accepted chunks are complete and the only
   file they make up is the message.
   */
  lemma HonestTransfer(events: seq<Event>, m: Manifest, message: Bytes, u: nat, n: nat, f: Bytes)
    requires 1 <= u <= |message| && u <= CHUNK_LEN && AllCutFrom(events, m, message, u) && MakesUp(n, |message|, u)
    requires m.totalSize == |message| && (forall i: nat :: i < n ==> Arrives(events, i)) && NeverMislearns(events, u)
    ensures SafeRun(events) && IsComplete(Accepted(events)) && (IsFileOf(Accepted(events), f) <==> f == message)
  {
    var b := Accepted(events);
    HonestSafe(events, m, message, u);
    HonestRun(events, m, message, u);
    HonestCount(b, m, message, u, n);
    HonestComplete(b, m, message, u, n);
    HonestFile(b, m, message, u, n);
  }

  lemma HonestComplete(b: Books, m: Manifest, message: Bytes, u: nat, n: nat)
    requires 1 <= u <= |message| && u <= CHUNK_LEN && Honest(b, m, message, u) && MakesUp(n, |message|, u)
    requires m.totalSize == |message| && |b.pieces| == n && 0 in b.content
    ensures IsComplete(b)
  {
    CutIsGood(b.pieces, |message|, u);
    RecordedIndex(b, 0);
    var k :| 0 <= k < |b.pieces| && b.pieces[k].index == 0;
    assert b.pieces[k] in b.pieces && HasZero(b.pieces);
    assert b.manifest == Some(m) && CompleteBy(|message|, b.pieces, u);
  }

  lemma HonestFile(b: Books, m: Manifest, message: Bytes, u: nat, n: nat)
    requires 1 <= u <= |message| && Honest(b, m, message, u) && MakesUp(n, |message|, u)
    requires forall i: nat :: i in b.content <==> i < n
    ensures message == Assembled(b.content, n)
  {
    forall i: nat | i < n ensures Fits(Piece(i, |b.content[i]|), |message|, u)
        && InFile(message, Times(i, u), b.content[i]) {
      AcceptedFits(b.pieces, map[], b.content, |message|, u, i);
    }
    FileIsAssembled(b.content, n, message, u);
  }
}
