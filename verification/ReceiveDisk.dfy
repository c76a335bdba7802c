/**
 The storage of one message as a value: records, the bytes they still carry, the file and what its open
 handle has learned; the steps of `storeReceiveChunkLocked` and `placeReceiveChunk` of
 `src/db/db.worker.ts` on it; and what safe steps keep.
 */
module ReceiveDisk {
  import opened Wrappers
  import opened Arithmetic
  import opened Bytes
  import opened ReceiveLayout
  import opened Reassembly
  import opened ReceiveBooks

  datatype Disk = Disk(
    manifest: Option<Manifest>, pieces: seq<Piece>, kept: map<nat, Bytes>, file: Bytes, entry: Option<Entry>)

  const EMPTY := Disk(None, [], map[], [], None)

  /** The file at its declared size. */
  function Sized(file: Bytes, total: nat): Bytes { if |file| != total then Resize(file, total) else file }

  /** `write` at an offset; it extends the file if need be. */
  function Overwrite(file: Bytes, offset: nat, bytes: Bytes): Bytes {
    if bytes == [] then file
    else if offset + |bytes| <= |file| then Patch(file, offset, bytes)
    else Resize(file, offset) + bytes
  }

  /** `ensureReceiveHandle`. */
  function WithHandle(d: Disk, total: nat, opens: bool): Disk {
    if d.entry.Some? || !opens then d else d.(file := Sized(d.file, total), entry := Some(NEW_ENTRY))
  }

  function OffsetOf(e: Entry, index: nat): nat { if index == 0 then 0 else index * e.uniformSize }

  /** `placeReceiveChunk`: count the chunk, and write it if the handle knows a size. */
  function Placing(d: Disk, c: Chunk, env: Env): Disk {
    var o := WithHandle(d, c.manifest.totalSize, env.opens);
    if !c.toFile then d
    else if o.entry.None? then o
    else
      var e := Seen(o.entry.value, c.index, c.realLen, c.manifest.totalSize);
      var t := o.(entry := Some(e));
      if !e.uniformKnown then t
      else t.(file := Overwrite(t.file, OffsetOf(e, c.index), c.data[..Min(env.written, |c.data|)]))
  }

  /** All bytes of the chunk were written. */
  predicate PlacedBy(d: Disk, c: Chunk, env: Env) {
    && c.toFile && Placing(d, c, env).entry.Some? && Placing(d, c, env).entry.value.uniformKnown
    && env.written >= |c.data|
  }

  /** `storeReceiveChunkLocked`: a new chunk is placed, then recorded if the transaction commits. */
  ghost function Stored(d: Disk, c: Chunk, env: Env): Disk {
    if IsNew(d.manifest, d.pieces, c) then StoredNew(d, c, env) else d
  }

  ghost function StoredNew(d: Disk, c: Chunk, env: Env): Disk {
    var t := Placing(d, c, env);
    match env.commit
    case Commits =>
      Disk(Some(c.manifest), d.pieces + [c.Place()],
           if PlacedBy(d, c, env) then d.kept else d.kept[c.index := c.data], t.file, t.entry)
    case Throws => t
    case Crashes => t.(entry := None)
  }

  // ----- what safe steps keep

  /** The open handle has counted what the books say. */
  ghost predicate HandleOk(d: Disk, handle: Option<Handle>) {
    && d.entry.Some? == handle.Some?
    && (handle.Some? ==> d.entry.value == handle.value.Learned() && |d.file| == handle.value.total)
  }

  /** Records describe the accepted chunks, and a record without bytes has them at its place in the file. */
  ghost predicate StorageOk(d: Disk, b: Books, total: nat) {
    && RecordsOk(d.pieces, d.kept, b.content) && FileOk(d.pieces, d.kept, b.content, d.file, total, b.cut)
    && (b.cut.Some? ==> b.cut.value <= total && AllFit(d.pieces, total, b.cut.value))
  }

  ghost predicate DiskOk(d: Disk, b: Books) {
    && d.manifest == b.manifest && d.pieces == b.pieces && HandleOk(d, b.handle)
    && RecordsOk(d.pieces, d.kept, b.content)
    && (b.manifest.None? ==> b.pieces == [] && b.cut.None?)
    && (b.manifest.Some? ==> StorageOk(d, b, b.manifest.value.totalSize))
  }

  /** The storage before a chunk of `total` bytes in all, whether or not it is the first one. */
  lemma StorageBefore(d: Disk, b: Books, c: Chunk)
    requires DiskOk(d, b) && SameManifest(b.manifest, c)
    ensures StorageOk(d, b, c.manifest.totalSize)
  {}

  lemma CountingEntry(d: Disk, handle: Option<Handle>, c: Chunk, env: Env)
    requires HandleOk(d, handle) && c.toFile && (handle.Some? ==> handle.value.total == c.manifest.totalSize)
    ensures var t, h := Placing(d, c, env), Counting(handle, c, env);
            && t.entry.Some? == h.Some?
            && (h.Some? ==> t.entry.value == h.value.Learned() && h.value.total == c.manifest.totalSize)
    ensures PlacedBy(d, c, env) == Places(handle, c, env)
  {
    if handle.Some? {
      var n := |handle.value.counted|;
      assert (handle.value.counted + [c.Place()])[..n] == handle.value.counted;
    } else {
      var one := [c.Place()];
      assert one[..|one| - 1] == [];
      assert EntryOf(one, c.manifest.totalSize) == Seen(NEW_ENTRY, c.index, c.realLen, c.manifest.totalSize);
    }
  }

  lemma PatchNothing(file: Bytes, offset: nat)
    requires offset <= |file|
    ensures Patch(file, offset, []) == file
  {}

  /** A chunk that fits the handle's size is written to its place; recorded chunks keep their bytes. */
  lemma WriteKeeps(ps: seq<Piece>, kept: map<nat, Bytes>, content: map<nat, Bytes>, file: Bytes, total: nat,
      cut: Option<nat>, e: Entry, p: Piece, data: Bytes, n: nat)
    requires RecordsOk(ps, kept, content) && FileOk(ps, kept, content, file, total, cut) && |file| == total
    requires AllFit(ps, total, SizeOf(e, total)) && Fits(p, total, SizeOf(e, total)) && p.index !in content
    requires (cut.Some? ==> cut.value == SizeOf(e, total)) && |data| == p.len && n <= |data|
    ensures var after := Overwrite(file, OffsetOf(e, p.index), data[..n]);
            && |after| == total && FileOk(ps, kept, content, after, total, cut)
            && (n == |data| ==> InFile(after, Times(p.index, SizeOf(e, total)), data))
  {
    var u := SizeOf(e, total);
    OffsetIs(p, total, e.uniformSize);
    PatchKeepsFile(ps, kept, content, file, total, u, p, data[..n]);
    PatchWrites(file, Times(p.index, u), data[..n]);
    if n == 0 { PatchNothing(file, Times(p.index, u)); }
    assert n == |data| ==> data[..n] == data;
  }

  /** After placing a new chunk: storage and handle, and the chunk's bytes if all of them were written. */
  lemma PlacingKeeps(d: Disk, b: Books, c: Chunk, env: Env)
    requires DiskOk(d, b) && IsNew(b.manifest, b.pieces, c) && c.index !in b.content && c.toFile
    requires Safe(b, Arrive(c, env))
    ensures var t := Placing(d, c, env);
            && t == d.(file := t.file, entry := t.entry)
            && HandleOk(t, Counting(b.handle, c, env)) && StorageOk(t, b, c.manifest.totalSize)
            && (Places(b.handle, c, env) ==>
                  InFile(t.file, Times(c.index, Counting(b.handle, c, env).value.Size()), c.data))
  {
    var total := c.manifest.totalSize;
    StorageBefore(d, b, c);
    CountingEntry(d, b.handle, c, env);
    var o := WithHandle(d, total, env.opens);
    if |d.file| != total { ResizeKeepsFile(d.pieces, d.kept, b.content, d.file, total, b.cut); }
    if Writes(b.handle, c, env) {
      var e := Placing(d, c, env).entry.value;
      WriteKeeps(d.pieces, d.kept, b.content, o.file, total, b.cut, e, c.Place(), c.data, Min(env.written, |c.data|));
    }
  }

  lemma UnplacedKeeps(d: Disk, b: Books, c: Chunk, env: Env)
    requires DiskOk(d, b) && SameManifest(b.manifest, c) && !c.toFile
    ensures Placing(d, c, env) == d && HandleOk(d, Counting(b.handle, c, env)) && StorageOk(d, b, c.manifest.totalSize)
    ensures !PlacedBy(d, c, env) && !Places(b.handle, c, env)
  {
    StorageBefore(d, b, c);
  }

  /** The record is added to storage that was prepared for it. */
  lemma RecordKeeps(t: Disk, b: Books, c: Chunk, env: Env, total: nat)
    requires StorageOk(t, b, total) && t.pieces == b.pieces && total == c.manifest.totalSize
    requires c.index !in b.content && |c.data| == c.realLen
    requires b.cut.Some? ==> Fits(c.Place(), total, b.cut.value)
    requires Places(b.handle, c, env) ==>
               var size := Counting(b.handle, c, env).value.Size();
               && size <= total && Fits(c.Place(), total, size) && AllFit(b.pieces, total, size)
               && (b.cut.Some? ==> b.cut.value == size)
               && |t.file| == total && InFile(t.file, Times(c.index, size), c.data)
    ensures var kept := if Places(b.handle, c, env) then t.kept else t.kept[c.index := c.data];
            StorageOk(Disk(Some(c.manifest), t.pieces + [c.Place()], kept, t.file, t.entry), Recorded(b, c, env), total)
  {
    var b' := Recorded(b, c, env);
    CommitKeeps(t.pieces, t.kept, b.content, t.file, total, b'.cut, c.Place(), c.data, Places(b.handle, c, env));
  }

  /** The records are those of the books, whatever the handle did. */
  ghost predicate SameRecords(d: Disk, b: Books) { d.manifest == b.manifest && d.pieces == b.pieces }

  lemma StoredRecords(d: Disk, b: Books, c: Chunk, env: Env)
    requires SameRecords(d, b)
    ensures SameRecords(Stored(d, c, env), Arrived(b, c, env))
  {}

  lemma NewContent(d: Disk, b: Books, c: Chunk)
    requires DiskOk(d, b) && IsNew(b.manifest, b.pieces, c)
    ensures c.index !in b.content
  {}

  lemma PreparedFor(d: Disk, b: Books, c: Chunk, env: Env)
    requires DiskOk(d, b) && IsNew(b.manifest, b.pieces, c) && Safe(b, Arrive(c, env))
    ensures var t := Placing(d, c, env);
            && t == d.(file := t.file, entry := t.entry)
            && HandleOk(t, Counting(b.handle, c, env)) && StorageOk(t, b, c.manifest.totalSize)
            && PlacedBy(d, c, env) == Places(b.handle, c, env)
            && (Places(b.handle, c, env) ==>
                  && |t.file| == c.manifest.totalSize
                  && InFile(t.file, Times(c.index, Counting(b.handle, c, env).value.Size()), c.data))
  {
    NewContent(d, b, c);
    if c.toFile {
      PlacingKeeps(d, b, c, env);
      CountingEntry(d, b.handle, c, env);
    } else {
      UnplacedKeeps(d, b, c, env);
    }
  }

  /** A safe arrival keeps the storage right, however its write and its commit go. */
  lemma StoreKeeps(d: Disk, b: Books, c: Chunk, env: Env)
    requires DiskOk(d, b) && Safe(b, Arrive(c, env))
    ensures DiskOk(Stored(d, c, env), Arrived(b, c, env))
  {
    if IsNew(b.manifest, b.pieces, c) {
      PreparedFor(d, b, c, env);
      NewStoreKeeps(d, b, c, env);
    }
  }

  lemma NewStoreKeeps(d: Disk, b: Books, c: Chunk, env: Env)
    requires DiskOk(d, b) && IsNew(b.manifest, b.pieces, c) && Safe(b, Arrive(c, env))
    ensures DiskOk(StoredNew(d, c, env), NewArrival(b, c, env))
  {
    var t := Placing(d, c, env);
    PreparedFor(d, b, c, env);
    NewContent(d, b, c);
    if env.commit == Commits { RecordKeeps(t, b, c, env, c.manifest.totalSize); }
  }

  // ----- reading a complete message

  lemma ReadLayout(b: Books)
    requires IsComplete(b) && GoodLayout(b.pieces, b.manifest.value.totalSize)
    ensures var total, u := b.manifest.value.totalSize, ReadSize(b.manifest, b.pieces);
            CompleteBy(total, b.pieces, u) && LayoutOk(b.pieces, total, u) && u <= total
  {
    var total, u := b.manifest.value.totalSize, ReadSize(b.manifest, b.pieces);
    var v :| Derived(b.pieces, v) && AllFit(b.pieces, total, v);
    DerivedUnique(b.pieces, u, v);
    DerivedBounded(b.pieces, total, u);
  }

  /** Closing the handle and sizing the file prepares the storage for migration. */
  lemma ReadPrepared(d: Disk, b: Books)
    requires DiskOk(d, b) && IsComplete(b) && GoodLayout(b.pieces, b.manifest.value.totalSize)
    ensures StorageOk(d, AfterRead(b), b.manifest.value.totalSize)
    ensures StorageOk(d.(file := Sized(d.file, b.manifest.value.totalSize)), AfterRead(b), b.manifest.value.totalSize)
  {
    var total, u := b.manifest.value.totalSize, ReadSize(b.manifest, b.pieces);
    ReadLayout(b);
    if b.cut.Some? { CutIsDerived(b.pieces, total, u, b.cut.value); }
    assert FileOk(d.pieces, d.kept, b.content, d.file, total, Some(u));
    if |d.file| != total { ResizeKeepsFile(d.pieces, d.kept, b.content, d.file, total, Some(u)); }
  }

  /** The bytes of the records in `done` are in the file. */
  ghost predicate InPlace(d: Disk, b: Books, u: nat, done: set<nat>) {
    forall i :: i in done ==> i in b.content && InFile(d.file, Times(i, u), b.content[i])
  }

  lemma AllInPlace(d: Disk, b: Books, u: nat, k: nat)
    requires RecordsOk(d.pieces, d.kept, b.content) && InPlace(d, b, u, d.kept.Keys) && k < |d.pieces|
    requires FileOk(d.pieces, d.kept, b.content, d.file, |d.file|, Some(u))
    ensures InFile(d.file, Times(d.pieces[k].index, u), b.content[d.pieces[k].index])
  {
    if d.pieces[k].index in d.kept { assert d.pieces[k].index in d.kept.Keys; }
  }

  /** Once every record's bytes are in the file, the file is the message, */
  lemma ReadIsMessage(d: Disk, b: Books)
    requires IsComplete(b) && GoodLayout(b.pieces, b.manifest.value.totalSize) && d.pieces == b.pieces
    requires StorageOk(d, AfterRead(b), b.manifest.value.totalSize) && |d.file| == b.manifest.value.totalSize >= 1
    requires InPlace(d, b, ReadSize(b.manifest, b.pieces), d.kept.Keys)
    ensures IsFileOf(b, d.file)
  {
    var u := ReadSize(b.manifest, b.pieces);
    ReadLayout(b);
    forall k | 0 <= k < |d.pieces| ensures InFile(d.file, Times(d.pieces[k].index, u), b.content[d.pieces[k].index]) {
      AllInPlace(d, b, u, k);
    }
    MessageComplete(b.pieces, d.kept, b.content, d.file, u);
  }

  /** and the records need no bytes any more. */
  lemma ReadStrips(d: Disk, b: Books)
    requires IsComplete(b) && SameRecords(d, b) && d.entry.None?
    requires StorageOk(d, AfterRead(b), b.manifest.value.totalSize) && |d.file| == b.manifest.value.totalSize
    requires InPlace(d, b, ReadSize(b.manifest, b.pieces), d.kept.Keys)
    ensures DiskOk(d.(kept := map[]), AfterRead(b))
  {
    var u := ReadSize(b.manifest, b.pieces);
    forall k | 0 <= k < |d.pieces| ensures InFile(d.file, Times(d.pieces[k].index, u), b.content[d.pieces[k].index]) {
      AllInPlace(d, b, u, k);
    }
  }
}
