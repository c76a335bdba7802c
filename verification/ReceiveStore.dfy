/**
 The receive store of one message as an object: `storeReceiveChunkLocked`, `placeReceiveChunk` and
 `getReceiveFileImpl` of `src/db/db.worker.ts` update its records, its file and what the open file
 handle has learned.

 Each method is proved to change the storage exactly as the step on values does, in safe and unsafe
 runs alike; reading is proved right for storage that safe runs keep.
 */
module ReceiveStore {
  import opened Wrappers
  import opened Arithmetic
  import opened Bytes
  import opened ReceiveLayout
  import opened Reassembly
  import opened ReceiveBooks
  import opened ReceiveDisk

  datatype Reply = Refused | Failed | Crashed | Done(stored: bool, progress: Progress)

  /** The records agree on one layout, whatever else happened. */
  ghost predicate LayoutKept(manifest: Option<Manifest>, ps: seq<Piece>) {
    && (manifest.None? ==> ps == [])
    && (manifest.Some? ==> ps != [] && manifest.value.totalSize >= 1 && GoodLayout(ps, manifest.value.totalSize))
  }

  /** Once the recorded chunks determine a size, it never changes. */
  lemma SizeStays(d: Disk, c: Chunk, env: Env, u: nat, v: nat)
    requires LayoutKept(d.manifest, d.pieces) && Determined(d.pieces) && Derived(d.pieces, u)
    requires Derived(Stored(d, c, env).pieces, v)
    ensures Determined(Stored(d, c, env).pieces) && u == v
  {
    if IsNew(d.manifest, d.pieces, c) && env.commit == Commits {
      var qs := d.pieces + [c.Place()];
      DeterminedMore(d.pieces, c.Place());
      var w :| Derived(qs, w) && AllFit(qs, c.manifest.totalSize, w);
      DerivedUnique(qs, v, w);
      UniformStays(d.pieces, c.Place(), c.manifest.totalSize, u, w);
    } else {
      DerivedUnique(d.pieces, u, v);
    }
  }

  /** The offset at which a chunk is migrated. */
  function PlaceAt(size: nat, index: nat): nat { if index == 0 then 0 else index * size }

  class ReceiveFile {
    var manifest: Option<Manifest>
    var pieces: seq<Piece>
    var kept: map<nat, Bytes>
    var file: Bytes
    var entry: Option<Entry>

    ghost function View(): Disk
      reads this
    {
      Disk(manifest, pieces, kept, file, entry)
    }

    ghost predicate Valid()
      reads this
    {
      LayoutKept(manifest, pieces)
    }

    constructor ()
      ensures Valid() && View() == EMPTY
    {
      manifest, pieces, kept, file, entry := None, [], map[], [], None;
    }

    /** The worker stops, or the handle is closed: what it learned is lost, the storage stays. */
    method Close()
      modifies this`entry
      ensures View() == old(View()).(entry := None)
    {
      entry := None;
    }

    /** `ensureReceiveHandle`: an open handle, and the file at its full size. */
    method EnsureHandle(total: nat, opens: bool) returns (ok: bool)
      modifies this`file, this`entry
      ensures View() == WithHandle(old(View()), total, opens) && ok == entry.Some?
    {
      if entry.Some? { return true; }
      if !opens { return false; }
      if |file| != total { file := Resize(file, total); }
      entry := Some(NEW_ENTRY);
      return true;
    }

    /** `writeReceiveAt`: the write may fail after some bytes, and extends the file if need be. */
    method WriteAt(offset: nat, data: Bytes, written: nat) returns (ok: bool)
      modifies this`file
      ensures file == Overwrite(old(file), offset, data[..Min(written, |data|)]) && ok == (written >= |data|)
    {
      var bytes := data[..Min(written, |data|)];
      if bytes != [] {
        file := if offset + |bytes| <= |file| then Patch(file, offset, bytes) else Resize(file, offset) + bytes;
      }
      ok := written >= |data|;
    }

    /** `placeReceiveChunk`: write the chunk to its place if a size is known, or leave it to its record. */
    method PlaceReceiveChunk(c: Chunk, env: Env) returns (placed: bool)
      requires c.toFile
      modifies this`file, this`entry
      ensures View() == Placing(old(View()), c, env) && placed == PlacedBy(old(View()), c, env)
    {
      var ok := EnsureHandle(c.manifest.totalSize, env.opens);
      if !ok { return false; }
      entry := Some(Seen(entry.value, c.index, c.realLen, c.manifest.totalSize));
      if !entry.value.uniformKnown { return false; }
      var offset := if c.index == 0 then 0 else c.index * entry.value.uniformSize;
      placed := WriteAt(offset, c.data, env.written);
    }

    method HasRecord(index: nat) returns (found: bool)
      ensures found <==> HasIndex(pieces, index)
    {
      found := false;
      for k := 0 to |pieces|
        invariant forall j :: 0 <= j < k ==> pieces[j].index != index
      {
        if pieces[k].index == index { return true; }
      }
    }

    /** The progress that the recorded chunks amount to. */
    method Report() returns (progress: Progress)
      requires Valid() && manifest.Some?
      ensures progress.savedSize == Sum(pieces) && (progress.complete <==> AllThere(manifest, pieces))
    {
      var r, u := ValidateLayout(pieces, manifest.value.totalSize);
      progress := r.value;
      if Determined(pieces) {
        CountMakesUp(|pieces|, manifest.value.totalSize, u);
        forall v: nat | CompleteBy(manifest.value.totalSize, pieces, v) ensures u == v { DerivedUnique(pieces, u, v); }
        assert progress.complete ==> CompleteBy(manifest.value.totalSize, pieces, u);
      }
    }

    /** Write a checked chunk and record it, unless the transaction throws or the worker stops. */
    method WriteAndCommit(c: Chunk, env: Env)
      modifies this
      ensures View() == StoredNew(old(View()), c, env)
    {
      var placed := false;
      if c.toFile { placed := PlaceReceiveChunk(c, env); }
      match env.commit
      case Throws =>
      case Crashes => entry := None;
      case Commits =>
        if !placed { kept := kept[c.index := c.data]; }
        pieces := pieces + [c.Place()];
        manifest := Some(c.manifest);
    }

    /** The layout with the new chunk, checked before anything is written. */
    method Preflight(c: Chunk) returns (fits: bool)
      requires InBounds(c)
      ensures fits <==> GoodLayout(pieces + [c.Place()], c.manifest.totalSize)
    {
      var r, u := ValidateLayout(pieces + [c.Place()], c.manifest.totalSize);
      fits := r.Some?;
    }

    /**
     `storeReceiveChunkLocked`. A chunk is refused exactly if it does not fit; a repeated one changes
     nothing; a new one is recorded with its bytes exactly if the transaction commits. The size that the
     recorded chunks determine never changes, and completion is reported exactly when every chunk is
     recorded.
     */
    method StoreReceiveChunk(c: Chunk, env: Env) returns (r: Reply)
      requires Valid()
      modifies this
      ensures Valid() && View() == Stored(old(View()), c, env)
      ensures r.Refused? <==> !Fitting(old(manifest), old(pieces), c)
      ensures !r.Refused? ==> c.schemaVersion == 1 && 1 <= c.manifest.messageType <= 64
      ensures !r.Refused? ==> c.index < c.manifest.totalSize <= MAX_MESSAGE_SIZE && |c.data| == c.realLen
      ensures !r.Refused? ==> 1 <= c.realLen <= CHUNK_LEN && (old(manifest).None? || old(manifest).value == c.manifest)
      ensures r.Failed? <==> IsNew(old(manifest), old(pieces), c) && env.commit == Throws
      ensures r.Crashed? <==> IsNew(old(manifest), old(pieces), c) && env.commit == Crashes
      ensures r.Done? ==> r.stored == !HasIndex(old(pieces), c.index) && r.progress.savedSize == Sum(pieces)
      ensures r.Done? ==> (r.progress.complete <==> AllThere(manifest, pieces))
      ensures forall u, v :: Determined(old(pieces)) && Derived(old(pieces), u) && Derived(pieces, v) ==> u == v
    {
      forall u, v | Determined(pieces) && Derived(pieces, u) && Derived(Stored(View(), c, env).pieces, v)
        ensures u == v
      {
        SizeStays(View(), c, env, u, v);
      }
      if !InBounds(c) || !SameManifest(manifest, c) { return Refused; }
      var already := HasRecord(c.index);
      if already {
        var progress := Report();
        return Done(false, progress);
      }
      var fits := Preflight(c);
      if !fits { return Refused; }
      WriteAndCommit(c, env);
      if env.commit == Throws { return Failed; }
      if env.commit == Crashes { return Crashed; }
      var progress := Report();
      return Done(true, progress);
    }

    /** `max(realLen)` over the records. */
    method LargestPiece() returns (size: nat)
      requires pieces != []
      ensures IsLargest(pieces, size)
    {
      size := 0;
      for k := 0 to |pieces|
        invariant forall j :: 0 <= j < k ==> pieces[j].len <= size
        invariant k > 0 ==> exists j :: 0 <= j < k && pieces[j].len == size
      {
        if k == 0 || pieces[k].len > size { size := pieces[k].len; }
      }
    }

    /** The storage is that of a complete message, prepared for migration by the size of its chunks. */
    ghost predicate Migrating(b: Books, size: nat)
      reads this
    {
      && IsComplete(b) && SameRecords(View(), b) && size == ReadSize(b.manifest, b.pieces)
      && StorageOk(View(), AfterRead(b), b.manifest.value.totalSize) && |file| == b.manifest.value.totalSize
    }

    /** One write of the migration, which may stop after `written` bytes. */
    method MigrateOne(i: nat, size: nat, written: nat, ghost b: Books, ghost done: set<nat>) returns (ok: bool)
      requires i in kept
      modifies this`file
      ensures file == Overwrite(old(file), PlaceAt(size, i), kept[i][..Min(written, |kept[i]|)])
      ensures ok == (written >= |kept[i]|)
      ensures old(Migrating(b, size) && InPlace(View(), b, size, done)) && i !in done ==>
                Migrating(b, size) && InPlace(View(), b, size, done + (if ok then {i} else {}))
    {
      if Migrating(b, size) && InPlace(View(), b, size, done) && i !in done {
        MigratesOne(View(), b, size, i, Min(written, |kept[i]|), done);
      }
      ok := WriteAt(if i == 0 then 0 else i * size, kept[i], written);
    }

    /** Write the bytes that records still carry to their places; the writing may fail part-way. */
    method Migrate(size: nat, failure: Option<Failure>, ghost b: Books) returns (ok: bool)
      modifies this`file
      ensures failure.None? ==> ok
      ensures old(Migrating(b, size)) ==> Migrating(b, size) && (ok ==> InPlace(View(), b, size, kept.Keys))
      ensures kept == map[] ==> file == old(file)
      ensures forall i :: kept.Keys == {i} && failure.None? ==> file == Overwrite(old(file), PlaceAt(size, i), kept[i])
    {
      var todo := kept.Keys;
      var count := 0;
      while todo != {}
        invariant todo <= kept.Keys && (todo == kept.Keys ==> file == old(file))
        invariant old(Migrating(b, size)) ==> Migrating(b, size) && InPlace(View(), b, size, kept.Keys - todo)
        invariant forall i :: kept.Keys == {i} && todo == {} && failure.None? ==>
                    file == Overwrite(old(file), PlaceAt(size, i), kept[i])
        decreases |todo|
      {
        var i :| i in todo;
        var written := if failure.Some? && failure.value.chunks == count then failure.value.bytes else |kept[i]|;
        var fine := MigrateOne(i, size, written, b, kept.Keys - todo);
        if failure.Some? && failure.value.chunks == count { return false; }
        assert kept[i][..|kept[i]|] == kept[i];
        assert kept.Keys - (todo - {i}) == kept.Keys - todo + {i};
        todo, count := todo - {i}, count + 1;
      }
      assert kept.Keys - todo == kept.Keys;
      return true;
    }

    /** The migration by which a complete message is read uses the size of its chunks. */
    lemma ReadStarts(b: Books, size: nat)
      requires Valid() && DiskOk(View(), b) && IsComplete(b)
      requires IsLargest(pieces, size)
      ensures Reading(b, size) && StorageOk(View(), AfterRead(b), manifest.value.totalSize)
    {
      ReadLayout(b);
      ReadPrepared(View(), b);
      LargestIsUniform(pieces, manifest.value.totalSize, ReadSize(b.manifest, b.pieces), size);
    }

    /** The storage becomes that of `Migrating` once the file has its size. */
    ghost predicate Reading(b: Books, size: nat)
      reads this
    {
      && IsComplete(b) && SameRecords(View(), b) && size == ReadSize(b.manifest, b.pieces)
      && StorageOk(View().(file := Sized(file, b.manifest.value.totalSize)), AfterRead(b), b.manifest.value.totalSize)
    }

    /** The finished file; the records drop their bytes. */
    method Finish(stripped: bool, ghost size: nat, ghost b: Books) returns (r: Option<Bytes>)
      requires Valid() && manifest.Some? && entry.None?
      modifies this`kept
      ensures r == (if |file| == manifest.value.totalSize then Some(file) else None)
      ensures kept == if stripped then map[] else old(kept)
      ensures old(Migrating(b, size) && InPlace(View(), b, size, kept.Keys)) ==>
                DiskOk(View(), AfterRead(b)) && r.Some? && IsFileOf(b, r.value)
    {
      r := if |file| == manifest.value.totalSize then Some(file) else None;
      if Migrating(b, size) && InPlace(View(), b, size, kept.Keys) {
        ReadIsMessage(View(), b);
        ReadStrips(View(), b);
      }
      if stripped { kept := map[]; }
    }

    /** Open the file, write what is missing, drop it from the records. */
    method Rewrite(size: nat, failure: Option<Failure>, stripped: bool, ghost b: Books) returns (r: Option<Bytes>)
      requires Valid() && manifest.Some? && entry.None?
      modifies this`file, this`kept
      ensures old(Reading(b, size)) ==>
                DiskOk(View(), AfterRead(b)) && (r.Some? ==> IsFileOf(b, r.value)) && (failure.None? ==> r.Some?)
      ensures forall i :: old(kept).Keys == {i} && failure.None? ==>
                && file == Overwrite(Sized(old(file), manifest.value.totalSize), PlaceAt(size, i), old(kept)[i])
                && kept == if stripped then map[] else old(kept)
    {
      if |file| != manifest.value.totalSize { file := Resize(file, manifest.value.totalSize); }
      assert old(Reading(b, size)) ==> Migrating(b, size);
      var ok := Migrate(size, failure, b);
      if !ok { return None; }
      r := Finish(stripped, size, b);
    }

    /**
     `getReceiveFileImpl`: bring the remaining bytes into the file and return it. From storage that safe
     runs keep, the file of a complete message is its chunks in index order. A file that needs nothing is
     returned as it is; a single record is migrated by its own size, whatever the size of the chunks is.
     */
    method GetReceiveFile(opens: bool, failure: Option<Failure>, stripped: bool, ghost b: Books)
        returns (r: Option<Bytes>)
      requires Valid() && manifest.Some?
      modifies this`entry, this`file, this`kept
      ensures old(DiskOk(View(), b)) && IsComplete(b) ==>
                && DiskOk(View(), AfterRead(b)) && (r.Some? ==> IsFileOf(b, r.value))
                && (opens && failure.None? ==> r.Some?)
      ensures old(kept) == map[] && |old(file)| == manifest.value.totalSize ==>
                r == Some(old(file)) && View() == old(View()).(entry := None)
      ensures forall p :: pieces == [p] && old(kept).Keys == {p.index} && opens && failure.None? ==>
                && file ==
                   Overwrite(Sized(old(file), manifest.value.totalSize), PlaceAt(p.len, p.index), old(kept)[p.index])
                && kept == (if stripped then map[] else old(kept)) && entry.None?
    {
      var size := LargestPiece();
      if DiskOk(View(), b) && IsComplete(b) { ReadStarts(b, size); }
      Close();
      r := ReadClosed(size, opens, failure, stripped, b);
    }

    /** Reading once the handle is closed: nothing to do, or a rewrite. */
    method ReadClosed(size: nat, opens: bool, failure: Option<Failure>, stripped: bool, ghost b: Books)
        returns (r: Option<Bytes>)
      requires Valid() && manifest.Some? && entry.None?
      modifies this`file, this`kept
      ensures old(Reading(b, size) && StorageOk(View(), AfterRead(b), manifest.value.totalSize)) ==>
                && DiskOk(View(), AfterRead(b)) && (r.Some? ==> IsFileOf(b, r.value))
                && (opens && failure.None? ==> r.Some?)
      ensures old(kept) == map[] && |old(file)| == manifest.value.totalSize ==>
                r == Some(old(file)) && View() == old(View())
      ensures forall i :: old(kept).Keys == {i} && opens && failure.None? ==>
                && file == Overwrite(Sized(old(file), manifest.value.totalSize), PlaceAt(size, i), old(kept)[i])
                && kept == if stripped then map[] else old(kept)
    {
      if |file| == manifest.value.totalSize && kept == map[] {
        assert old(Reading(b, size)) ==> Migrating(b, size);
        r := Finish(false, size, b);
        return;
      }
      if !opens { return None; }
      r := Rewrite(size, failure, stripped, b);
    }

    /**
     One event of a transfer. `done` is the latest report of completion; the application reads the file
     only when it is complete. Safe or not, records and reports follow the books; after a safe event the
     storage does too.
     */
    method Apply(e: Event, done: bool, ghost b: Books) returns (now: bool, f: Option<Bytes>)
      requires Valid() && SameRecords(View(), b) && (done <==> IsComplete(b))
      modifies this
      ensures Valid() && SameRecords(View(), Accept(b, e)) && (now <==> IsComplete(Accept(b, e)))
      ensures f.Some? ==> e.Read? && done
      ensures old(DiskOk(View(), b)) && Safe(b, e) ==> DiskOk(View(), Accept(b, e))
      ensures old(DiskOk(View(), b)) && f.Some? ==> IsFileOf(b, f.value)
      ensures old(DiskOk(View(), b)) && e.Read? && done && e.opens && e.failure.None? ==> f.Some?
    {
      now, f := done, None;
      match e
      case Stop => Close();
      case Read(opens, failure, stripped) =>
        if done { f := GetReceiveFile(opens, failure, stripped, b); }
      case Arrive(c, env) =>
        StoredRecords(View(), b, c, env);
        if DiskOk(View(), b) && Safe(b, e) { StoreKeeps(View(), b, c, env); }
        var reply := StoreReceiveChunk(c, env);
        if reply.Done? { now := reply.progress.complete; }
    }
  }

  /** Writing a chunk of a complete message to its place, fully or in part. */
  lemma MigratesOne(d: Disk, b: Books, size: nat, i: nat, n: nat, done: set<nat>)
    requires IsComplete(b) && SameRecords(d, b) && size == ReadSize(b.manifest, b.pieces)
    requires i in d.kept && n <= |d.kept[i]| && i !in done
    requires StorageOk(d, AfterRead(b), b.manifest.value.totalSize) && |d.file| == b.manifest.value.totalSize
    requires InPlace(d, b, size, done)
    ensures var t := d.(file := Overwrite(d.file, PlaceAt(size, i), d.kept[i][..n]));
            && StorageOk(t, AfterRead(b), b.manifest.value.totalSize) && |t.file| == b.manifest.value.totalSize
            && InPlace(t, b, size, done + (if n == |d.kept[i]| then {i} else {}))
  {
    var total := b.manifest.value.totalSize;
    MigrateStep(d.pieces, d.kept, b.content, d.file, total, size, i, n);
    TimesIs(i, size);
    if n == 0 { PatchNothing(d.file, Times(i, size)); }
  }

  // ----- reading before the chunk size is determined

  /** The place of a single record read early is its own place exactly if its chunk is a full one. */
  lemma EarlyPlace(p: Piece, total: nat, u: nat)
    requires Fits(p, total, u) && p.index >= 1
    ensures PlaceAt(p.len, p.index) == Times(p.index, u) <==> Times(p.index, u) + u <= total
    ensures Times(p.index, u) + u > total ==> PlaceAt(p.len, p.index) + p.index <= Times(p.index, u)
  {
    TimesIs(p.index, p.len);
    if p.len < u { TimesStrict(p.index, p.len, u); }
  }

  // ----- whole transfers

  /** The read at position `k`, if there is one, returned the complete message. */
  ghost predicate ReadsRight(events: seq<Event>, files: seq<Option<Bytes>>, k: nat)
    requires k < |events| && k < |files|
  {
    var b := Accepted(events[..k]);
    && (files[k].Some? ==> events[k].Read? && IsComplete(b) && IsFileOf(b, files[k].value))
    && (events[k].Read? && IsComplete(b) && events[k].opens && events[k].failure.None? ==> files[k].Some?)
  }

  /**
   Any sequence of arrivals, in any order, with duplicates, misfits, failing files and commits, stops,
   crashes and reads: completion is reported exactly when the accepted chunks are complete. If the run
   is safe, every file that a read returns has the declared size and is the accepted chunks in index
   order, with the bytes of the first recorded arrival of each; a read that finds a complete message and
   working storage returns it. Runs without failed commits are safe (`SafeWithoutThrows`), and so are all
   runs of one cut in which no handle takes its short last chunk for a full one (`HonestSafe`).
   */
  method Transfer(events: seq<Event>) returns (done: bool, files: seq<Option<Bytes>>)
    ensures done <==> IsComplete(Accepted(events))
    ensures |files| == |events| && (SafeRun(events) ==> forall k: nat :: k < |events| ==> ReadsRight(events, files, k))
  {
    var store := new ReceiveFile();
    done, files := false, [];
    for k := 0 to |events|
      invariant store.Valid() && fresh(store) && SameRecords(store.View(), Accepted(events[..k]))
      invariant (done <==> IsComplete(Accepted(events[..k]))) && |files| == k
      invariant SafeRun(events) ==> DiskOk(store.View(), Accepted(events[..k]))
      invariant SafeRun(events) ==> forall j: nat :: j < k ==> ReadsRight(events, files, j)
    {
      var f: Option<Bytes>;
      assert SafeRun(events) ==> Safe(Accepted(events[..k]), events[k]);
      done, f := store.Apply(events[k], done, Accepted(events[..k]));
      AcceptedMore(events, k);
      if SafeRun(events) { ReadsRightMore(events, files, f, k); }
      files := files + [f];
    }
    assert events[..|events|] == events;
  }

  lemma ReadsRightMore(events: seq<Event>, files: seq<Option<Bytes>>, f: Option<Bytes>, k: nat)
    requires k < |events| && |files| == k && forall j: nat :: j < k ==> ReadsRight(events, files, j)
    requires var b := Accepted(events[..k]);
             && (f.Some? ==> events[k].Read? && IsComplete(b) && IsFileOf(b, f.value))
             && (events[k].Read? && IsComplete(b) && events[k].opens && events[k].failure.None? ==> f.Some?)
    ensures forall j: nat :: j <= k ==> ReadsRight(events, files + [f], j)
  {
    forall j: nat | j <= k ensures ReadsRight(events, files + [f], j) {
      if j < k { assert ReadsRight(events, files, j) && (files + [f])[j] == files[j]; }
    }
  }

  lemma AcceptedMore(events: seq<Event>, k: nat)
    requires k < |events|
    ensures Accepted(events[..k + 1]) == Accept(Accepted(events[..k]), events[k])
  {
    assert events[..k + 1][..k] == events[..k];
  }
}
