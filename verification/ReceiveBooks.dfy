/**
 What a receiver has accepted of one message, as a function of everything that happened to it, and which
 runs are safe: no chunk is written to a place that is not its own.
 */
module ReceiveBooks {
  import opened Wrappers
  import opened Bytes
  import opened ReceiveLayout
  import opened Reassembly

  const MAX_MESSAGE_SIZE: nat := 10 * 1024 * 1024 * 1024

  /** What all chunks of a message have in common: room, peer, hash, name, label, time, and the size. */
  datatype Manifest = Manifest(totalSize: nat, messageType: nat, identity: string)

  datatype Chunk = Chunk(schemaVersion: nat, manifest: Manifest, index: nat, realLen: nat, data: Bytes, toFile: bool) {
    function Place(): Piece { Piece(index, realLen) }
  }

  /** The transaction that records a chunk commits, throws, or never runs because the worker stops. */
  datatype Commit = Commits | Throws | Crashes

  /** Whether the file opens, after how many bytes a write fails, and how the commit goes. */
  datatype Env = Env(opens: bool, written: nat, commit: Commit)

  /** A migration that fails at its `chunks`-th chunk, after `bytes` bytes of it. */
  datatype Failure = Failure(chunks: nat, bytes: nat)

  datatype Event =
    | Arrive(chunk: Chunk, env: Env)
    | Stop
    | Read(opens: bool, failure: Option<Failure>, stripped: bool)

  predicate InBounds(c: Chunk) {
    && c.schemaVersion == 1 && 1 <= c.manifest.messageType <= 64
    && 1 <= c.realLen <= CHUNK_LEN && 1 <= c.manifest.totalSize <= MAX_MESSAGE_SIZE
    && c.realLen <= c.manifest.totalSize && c.index < c.manifest.totalSize && |c.data| == c.realLen
  }

  /** An open file handle: the file's size, and the chunks it has counted. */
  datatype Handle = Handle(total: nat, counted: seq<Piece>) {
    function Learned(): Entry { EntryOf(counted, total) }
    function Size(): nat { SizeOf(Learned(), total) }
  }

  /**
   The accepted chunks: their common manifest, their places in order of acceptance, their bytes; beside
   them the open handle, and the chunk size by which chunks were placed in the file, if any was.
   */
  datatype Books = Books(
    manifest: Option<Manifest>, pieces: seq<Piece>, content: map<nat, Bytes>, handle: Option<Handle>, cut: Option<nat>)

  const NOTHING := Books(None, [], map[], None, None)

  predicate HasIndex(ps: seq<Piece>, i: nat) { exists k :: 0 <= k < |ps| && ps[k].index == i }

  predicate SameManifest(manifest: Option<Manifest>, c: Chunk) { manifest.Some? ==> manifest.value == c.manifest }

  /** The chunk fits what was recorded before, or repeats it. */
  ghost predicate Fitting(manifest: Option<Manifest>, ps: seq<Piece>, c: Chunk) {
    && InBounds(c) && SameManifest(manifest, c)
    && (HasIndex(ps, c.index) || GoodLayout(ps + [c.Place()], c.manifest.totalSize))
  }

  /** The chunk fits, and is not recorded yet. */
  ghost predicate IsNew(manifest: Option<Manifest>, ps: seq<Piece>, c: Chunk) {
    Fitting(manifest, ps, c) && !HasIndex(ps, c.index)
  }

  /** The handle once it has counted the chunk; a chunk that does not go to the file is not counted. */
  function Counting(handle: Option<Handle>, c: Chunk, env: Env): Option<Handle> {
    if !c.toFile then handle
    else if handle.Some? then Some(handle.value.(counted := handle.value.counted + [c.Place()]))
    else if env.opens then Some(Handle(c.manifest.totalSize, [c.Place()]))
    else None
  }

  /** The chunk is written by a handle that knows a size. */
  predicate Writes(handle: Option<Handle>, c: Chunk, env: Env) {
    c.toFile && Counting(handle, c, env).Some? && Counting(handle, c, env).value.Learned().uniformKnown
  }

  predicate Places(handle: Option<Handle>, c: Chunk, env: Env) { Writes(handle, c, env) && env.written >= |c.data| }

  /** The books with one more chunk. */
  ghost function Recorded(b: Books, c: Chunk, env: Env): Books {
    var handle := Counting(b.handle, c, env);
    Books(Some(c.manifest), b.pieces + [c.Place()], b.content[c.index := c.data], handle,
          if Places(b.handle, c, env) then Some(handle.value.Size()) else b.cut)
  }

  /** A new chunk is recorded, or only counted by the handle, or lost with the worker. */
  ghost function NewArrival(b: Books, c: Chunk, env: Env): Books {
    match env.commit
    case Commits => Recorded(b, c, env)
    case Throws => b.(handle := Counting(b.handle, c, env))
    case Crashes => b.(handle := None)
  }

  ghost function Arrived(b: Books, c: Chunk, env: Env): Books {
    if IsNew(b.manifest, b.pieces, c) then NewArrival(b, c, env) else b
  }

  ghost predicate CompleteBy(total: nat, ps: seq<Piece>, u: nat) {
    u >= 1 && Derived(ps, u) && MakesUp(|ps|, total, u)
  }

  /** The recorded chunks are all of the message. */
  ghost predicate AllThere(manifest: Option<Manifest>, ps: seq<Piece>) {
    manifest.Some? && Determined(ps) && exists u: nat :: CompleteBy(manifest.value.totalSize, ps, u)
  }

  ghost predicate IsComplete(b: Books) { AllThere(b.manifest, b.pieces) }

  /** The size by which a complete message is read. */
  ghost function ReadSize(manifest: Option<Manifest>, ps: seq<Piece>): (u: nat)
    requires AllThere(manifest, ps)
    ensures CompleteBy(manifest.value.totalSize, ps, u)
  {
    var u: nat :| CompleteBy(manifest.value.totalSize, ps, u);
    u
  }

  /** Reading a complete message closes the handle, and places what is not in the file yet. */
  ghost function AfterRead(b: Books): Books
    requires IsComplete(b)
  {
    b.(handle := None, cut := Some(ReadSize(b.manifest, b.pieces)))
  }

  /** One event; the application reads the file only when it is complete. */
  ghost function Accept(b: Books, e: Event): Books {
    match e
    case Arrive(c, env) => Arrived(b, c, env)
    case Stop => b.(handle := None)
    case Read(_, _, _) => if IsComplete(b) then AfterRead(b) else b
  }

  /** The first fitting arrival of each index, as far as it was recorded. */
  ghost function Accepted(events: seq<Event>): Books {
    if events == [] then NOTHING else Accept(Accepted(events[..|events| - 1]), events[|events| - 1])
  }

  /** `f` has the declared size and is the accepted chunks in index order. */
  ghost predicate IsFileOf(b: Books, f: Bytes) {
    b.manifest.Some? && |f| == b.manifest.value.totalSize && IsMessage(b.content, |b.pieces|, f)
  }

  // ----- when the places of chunks agree

  /**
   The check that the store does not make: a new chunk fits the size by which chunks were placed before,
   and a handle that writes it was opened for this message and knows a size that this chunk, every
   recorded chunk and every earlier placement agree with.
   */
  ghost predicate Safe(b: Books, e: Event) {
    e.Arrive? && IsNew(b.manifest, b.pieces, e.chunk) ==>
      var c, total := e.chunk, e.chunk.manifest.totalSize;
      && (b.cut.Some? ==> Fits(c.Place(), total, b.cut.value))
      && (c.toFile && b.handle.Some? ==> b.handle.value.total == total)
      && (Writes(b.handle, c, e.env) ==>
            var size := Counting(b.handle, c, e.env).value.Size();
            && size <= total && Fits(c.Place(), total, size) && AllFit(b.pieces, total, size)
            && (b.cut.Some? ==> b.cut.value == size))
  }

  ghost predicate SafeRun(events: seq<Event>) {
    forall k: nat :: k < |events| ==> Safe(Accepted(events[..k]), events[k])
  }

  // ----- without failed commits

  ghost predicate NoThrows(events: seq<Event>) {
    forall k :: 0 <= k < |events| && events[k].Arrive? ==> events[k].env.commit != Throws
  }

  /** Then every chunk that the open handle counted is recorded. */
  ghost predicate Recording(b: Books) {
    && (b.manifest.None? ==> b == NOTHING)
    && (b.manifest.Some? ==>
          var total := b.manifest.value.totalSize;
          && total >= 1 && GoodLayout(b.pieces, total)
          && (b.handle.Some? ==>
                && b.handle.value.total == total && Distinct(b.handle.value.counted)
                && forall p :: p in b.handle.value.counted ==> p in b.pieces)
          && (b.cut.Some? ==>
                Determined(b.pieces) && Derived(b.pieces, b.cut.value) && AllFit(b.pieces, total, b.cut.value)))
  }

  /** The size that recorded chunks determine is at most the size of the message. */
  lemma DerivedBounded(ps: seq<Piece>, total: nat, u: nat)
    requires AllBounded(ps, total) && Determined(ps) && Derived(ps, u)
    ensures 1 <= u <= total
  {
    if HasZero(ps) {
      assert Bounded(Piece(0, u), total);
    } else {
      var p :| p in ps && p.len == u;
      assert Bounded(p, total);
    }
  }

  lemma CountedDistinct(counted: seq<Piece>, ps: seq<Piece>, p: Piece)
    requires Distinct(counted) && (forall q :: q in counted ==> q in ps) && !HasIndex(ps, p.index)
    ensures Distinct(counted + [p]) && forall q :: q in counted + [p] ==> q in ps + [p]
  {
    forall k | 0 <= k < |counted| ensures counted[k].index != p.index {
      assert counted[k] in ps;
      var j :| 0 <= j < |ps| && ps[j] == counted[k];
    }
    DistinctAppend(counted, p);
  }

  /** Distinct chunks do not include the same short chunk twice. */
  lemma DistinctNotShort(counted: seq<Piece>, total: nat, u: nat)
    requires Distinct(counted) && AllFit(counted, total, u)
    ensures !ShortTwice(counted, u)
  {
    if |counted| >= 2 {
      assert counted[0] in counted && counted[1] in counted;
      TwoGiveUniform(counted[0], counted[1], total, u);
    }
  }

  /** A handle that counted recorded chunks knows a size only if these determine it. */
  lemma KnownIsDetermined(counted: seq<Piece>, ps: seq<Piece>, total: nat)
    requires Distinct(counted) && (forall p :: p in counted ==> p in ps) && EntryOf(counted, total).uniformKnown
    ensures Determined(ps)
  {
    if |counted| >= 2 {
      TwoMembers(counted, ps);
    } else {
      KnownFirst(counted, total);
      assert counted[0] in ps && counted[0].index == 0;
    }
  }

  lemma KnownFirst(counted: seq<Piece>, total: nat)
    requires |counted| <= 1 && EntryOf(counted, total).uniformKnown
    ensures counted != [] && counted[0].index == 0
  {
    if counted != [] { assert counted[..0] == []; }
  }

  lemma TwoMembers(counted: seq<Piece>, ps: seq<Piece>)
    requires |counted| >= 2 && Distinct(counted) && forall p :: p in counted ==> p in ps
    ensures |ps| >= 2
  {
    assert counted[0] in ps && counted[1] in ps && counted[0].index != counted[1].index;
  }

  /** The size that the handle of such a run knows is the one that all recorded chunks fit. */
  lemma KnowsDerived(h: Handle, qs: seq<Piece>, v: nat)
    requires GoodLayout(qs, h.total) && Distinct(h.counted) && (forall p :: p in h.counted ==> p in qs)
    requires h.Learned().uniformKnown && (Determined(qs) ==> Derived(qs, v) && AllFit(qs, h.total, v))
    ensures Determined(qs) && h.Size() == v <= h.total
  {
    KnownIsDetermined(h.counted, qs, h.total);
    DerivedBounded(qs, h.total, v);
    DistinctNotShort(h.counted, h.total, v);
    LearnedExactly(h.counted, h.total, v);
  }

  /** The size that the recorded chunks determine together with a new one. */
  lemma NewSize(b: Books, c: Chunk) returns (v: nat)
    requires Recording(b) && IsNew(b.manifest, b.pieces, c)
    ensures var qs := b.pieces + [c.Place()]; Determined(qs) ==> Derived(qs, v) && AllFit(qs, c.manifest.totalSize, v)
    ensures b.cut.Some? ==> Determined(b.pieces + [c.Place()]) && v == b.cut.value
  {
    var qs := b.pieces + [c.Place()];
    v := 0;
    if Determined(qs) { v :| Derived(qs, v) && AllFit(qs, c.manifest.totalSize, v); }
    if b.cut.Some? {
      DeterminedMore(b.pieces, c.Place());
      UniformStays(b.pieces, c.Place(), c.manifest.totalSize, b.cut.value, v);
    }
  }

  lemma RecordingCounts(b: Books, c: Chunk, env: Env)
    requires Recording(b) && IsNew(b.manifest, b.pieces, c) && Counting(b.handle, c, env).Some? && c.toFile
    ensures var h := Counting(b.handle, c, env).value;
            && h.total == c.manifest.totalSize && Distinct(h.counted)
            && forall p :: p in h.counted ==> p in b.pieces + [c.Place()]
  {
    if b.handle.Some? { CountedDistinct(b.handle.value.counted, b.pieces, c.Place()); }
  }

  lemma RecordingSafe(b: Books, c: Chunk, env: Env, v: nat)
    requires Recording(b) && IsNew(b.manifest, b.pieces, c)
    requires var qs := b.pieces + [c.Place()]; Determined(qs) ==> Derived(qs, v) && AllFit(qs, c.manifest.totalSize, v)
    requires b.cut.Some? ==> Determined(b.pieces + [c.Place()]) && v == b.cut.value
    ensures Safe(b, Arrive(c, env))
    ensures Writes(b.handle, c, env) ==>
              Determined(b.pieces + [c.Place()]) && Counting(b.handle, c, env).value.Size() == v
  {
    var qs := b.pieces + [c.Place()];
    assert qs[|b.pieces|] == c.Place() && c.Place() in qs && forall p :: p in b.pieces ==> p in qs;
    if Writes(b.handle, c, env) {
      RecordingCounts(b, c, env);
      KnowsDerived(Counting(b.handle, c, env).value, qs, v);
    }
  }

  lemma RecordingMore(b: Books, c: Chunk, env: Env, v: nat)
    requires Recording(b) && IsNew(b.manifest, b.pieces, c)
    requires var qs := b.pieces + [c.Place()]; Determined(qs) ==> Derived(qs, v) && AllFit(qs, c.manifest.totalSize, v)
    requires b.cut.Some? ==> Determined(b.pieces + [c.Place()]) && v == b.cut.value
    ensures Recording(Recorded(b, c, env))
  {
    RecordingSafe(b, c, env, v);
    if c.toFile {
      if Counting(b.handle, c, env).Some? { RecordingCounts(b, c, env); }
    } else if b.handle.Some? {
      assert forall p :: p in b.pieces ==> p in b.pieces + [c.Place()];
    }
  }

  lemma RecordingStep(b: Books, e: Event)
    requires Recording(b) && (e.Arrive? ==> e.env.commit != Throws)
    ensures Safe(b, e) && Recording(Accept(b, e))
  {
    match e
    case Stop =>
    case Read(_, _, _) =>
      if IsComplete(b) { ReadRecording(b); }
    case Arrive(c, env) =>
      if IsNew(b.manifest, b.pieces, c) {
        var v := NewSize(b, c);
        RecordingSafe(b, c, env, v);
        RecordingMore(b, c, env, v);
      }
  }

  lemma ReadRecording(b: Books)
    requires Recording(b) && IsComplete(b)
    ensures Recording(AfterRead(b))
  {
    var v :| Derived(b.pieces, v) && AllFit(b.pieces, b.manifest.value.totalSize, v);
    DerivedUnique(b.pieces, v, AfterRead(b).cut.value);
  }

  /** Whatever arrives, in whatever order: without failed commits every run is safe. */
  lemma {:induction false} SafeWithoutThrows(events: seq<Event>)
    requires NoThrows(events)
    ensures SafeRun(events) && Recording(Accepted(events))
    decreases |events|
  {
    if events != [] {
      var rest, last := events[..|events| - 1], events[|events| - 1];
      SafeWithoutThrows(rest);
      RecordingStep(Accepted(rest), last);
      SafeRunMore(events);
    }
  }

  lemma SafeRunMore(events: seq<Event>)
    requires events != [] && SafeRun(events[..|events| - 1])
    requires Safe(Accepted(events[..|events| - 1]), events[|events| - 1])
    ensures SafeRun(events)
  {
    var rest := events[..|events| - 1];
    forall k: nat | k < |events| ensures Safe(Accepted(events[..k]), events[k]) {
      if k < |rest| { assert rest[..k] == events[..k] && rest[k] == events[k]; }
    }
  }
}
