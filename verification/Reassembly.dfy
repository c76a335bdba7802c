/**
 Receive-side reassembly: `storeReceiveChunkLocked`, `placeReceiveChunk` and `getReceiveFileImpl` of
 `src/db/db.worker.ts`, for one message.

 The records of the chunk store are a list of pieces, together with the bytes that some records still
 carry (`kept`); the message's file is a byte string. A record without bytes promises that its bytes
 are in the file. The history `content` holds the bytes of every accepted chunk, and the history `cut` the
 chunk size by which chunks were placed in the file, if any was.
 */
module Reassembly {
  import opened Wrappers
  import opened Bytes
  import opened Arithmetic
  import opened ReceiveLayout

  // ----- the uniform size

  /** Two different chunks include a full one. */
  lemma TwoGiveUniform(p: Piece, q: Piece, total: nat, u: nat)
    requires Fits(p, total, u) && Fits(q, total, u) && p.index != q.index
    ensures p.len <= u && q.len <= u && (p.len == u || q.len == u)
  {
    if p.index < q.index { FullBefore(p, q, total, u); } else { FullBefore(q, p, total, u); }
  }

  /** Once determined, the uniform size never changes. */
  lemma UniformStays(ps: seq<Piece>, p: Piece, total: nat, u: nat, v: nat)
    requires Determined(ps) && Derived(ps, u) && Distinct(ps + [p]) && Derived(ps + [p], v)
    requires AllFit(ps + [p], total, v)
    ensures u == v
  {
    var qs := ps + [p];
    if HasZero(ps) {
      var z :| z in ps && z.index == 0;
      assert z in qs;
      var i :| 0 <= i < |ps| && ps[i] == Piece(0, u);
      var j :| 0 <= j < |qs| && qs[j] == Piece(0, v);
      assert qs[i] == ps[i];
    } else {
      assert qs[0] == ps[0] && qs[1] == ps[1] && qs[0] in qs && qs[1] in qs;
      TwoGiveUniform(ps[0], ps[1], total, v);
      var x :| x in ps && x.len == u;
      assert x in qs;
      assert Fits(x, total, v);
    }
  }

  // ----- places in the file

  lemma RegionInside(p: Piece, total: nat, u: nat)
    requires Fits(p, total, u)
    ensures Times(p.index, u) + p.len <= total
  {}

  /** Different chunks occupy different bytes. */
  lemma RegionsDisjoint(p: Piece, q: Piece, total: nat, u: nat)
    requires Fits(p, total, u) && Fits(q, total, u) && p.index != q.index
    ensures Times(p.index, u) + p.len <= Times(q.index, u) || Times(q.index, u) + q.len <= Times(p.index, u)
  {
    if p.index < q.index {
      FullBefore(p, q, total, u);
    } else {
      FullBefore(q, p, total, u);
    }
  }

  ghost predicate InFile(file: Bytes, offset: nat, bytes: Bytes) {
    offset + |bytes| <= |file| && file[offset..offset + |bytes|] == bytes
  }

  /** `writeReceiveAt`. */
  function Patch(file: Bytes, offset: nat, bytes: Bytes): (r: Bytes)
    requires offset + |bytes| <= |file|
    ensures |r| == |file|
  {
    file[..offset] + bytes + file[offset + |bytes|..]
  }

  lemma PatchWrites(file: Bytes, offset: nat, bytes: Bytes)
    requires offset + |bytes| <= |file|
    ensures InFile(Patch(file, offset, bytes), offset, bytes)
  {}

  lemma PatchKeeps(file: Bytes, offset: nat, bytes: Bytes, other: nat, kept: Bytes)
    requires offset + |bytes| <= |file| && InFile(file, other, kept)
    requires offset + |bytes| <= other || other + |kept| <= offset
    ensures InFile(Patch(file, offset, bytes), other, kept)
  {
    assert Patch(file, offset, bytes)[other..other + |kept|] == file[other..other + |kept|];
  }

  /** `truncate`: cut off, or fill up with zeros. */
  function Resize(file: Bytes, n: nat): (r: Bytes)
    ensures |r| == n && forall i :: 0 <= i < n ==> r[i] == if i < |file| then file[i] else 0
  {
    if |file| >= n then file[..n] else file + seq(n - |file|, _ => 0)
  }

  // ----- what the store keeps

  /** Every record describes an accepted chunk; bytes kept in a record are that chunk's. */
  ghost predicate RecordsOk(ps: seq<Piece>, kept: map<nat, Bytes>, content: map<nat, Bytes>) {
    && (forall k :: 0 <= k < |ps| ==> ps[k].index in content && |content[ps[k].index]| == ps[k].len)
    && (forall i :: i in content ==> exists k :: 0 <= k < |ps| && ps[k].index == i)
    && (forall i :: i in kept ==> i in content && kept[i] == content[i])
  }

  /** A record without bytes: its bytes are in the file, at its place in the cut. */
  ghost predicate FileOk(
    ps: seq<Piece>, kept: map<nat, Bytes>, content: map<nat, Bytes>, file: Bytes, total: nat, cut: Option<nat>)
    requires RecordsOk(ps, kept, content)
  {
    forall k :: 0 <= k < |ps| && ps[k].index !in kept ==>
      cut.Some? && |file| == total && InFile(file, Times(ps[k].index, cut.value), content[ps[k].index])
  }

  /** The recorded chunks fit together, with uniform size `u` once that is determined. */
  ghost predicate LayoutOk(ps: seq<Piece>, total: nat, u: nat) {
    GoodLayout(ps, total) && (Determined(ps) ==> Derived(ps, u) && AllFit(ps, total, u))
  }

  /** The size of a cut that all chunks fit is the one they determine. */
  lemma CutIsDerived(ps: seq<Piece>, total: nat, u: nat, cut: nat)
    requires Distinct(ps) && Determined(ps) && Derived(ps, u) && AllFit(ps, total, cut) && cut <= total
    ensures u == cut
  {
    if HasZero(ps) {
      assert Fits(Piece(0, u), total, cut);
    } else {
      assert ps[0] in ps && ps[1] in ps;
      TwoGiveUniform(ps[0], ps[1], total, cut);
      var x :| x in ps && x.len == u;
      assert Fits(x, total, cut);
    }
  }

  /** What the open file has learned; it is forgotten when the file is closed or the worker stops. */
  datatype Entry = Entry(uniformSize: nat, uniformKnown: bool, maxRealLen: nat, seenCount: nat)

  const NEW_ENTRY := Entry(0, false, 0, 0)

  /** The entry after it saw one more chunk, as `placeReceiveChunk` updates it. */
  function Seen(e: Entry, index: nat, realLen: nat, total: nat): Entry {
    var m := if e.maxRealLen >= realLen then e.maxRealLen else realLen;
    var e := e.(maxRealLen := m, seenCount := e.seenCount + 1);
    if e.uniformKnown then e
    else if index == 0 then e.(uniformSize := if realLen < total then realLen else e.uniformSize, uniformKnown := true)
    else if e.seenCount >= 2 then e.(uniformSize := m, uniformKnown := true)
    else e
  }

  /** The entry of a handle that has counted these chunks. */
  function EntryOf(counted: seq<Piece>, total: nat): Entry {
    if counted == [] then NEW_ENTRY
    else
      var last := counted[|counted| - 1];
      Seen(EntryOf(counted[..|counted| - 1], total), last.index, last.len, total)
  }

  /** The size by which an entry places chunks; a message that is one chunk needs none. */
  function SizeOf(e: Entry, total: nat): nat { if e.uniformSize == 0 then total else e.uniformSize }

  /** The first two chunks that the handle counted are short ones: the same last chunk, twice. */
  predicate ShortTwice(counted: seq<Piece>, u: nat) { |counted| >= 2 && counted[0].len < u && counted[1].len < u }

  /** An entry that does not know the size has counted one chunk, not the first of the message. */
  lemma {:induction false} UnknownIsOne(counted: seq<Piece>, total: nat)
    ensures var e := EntryOf(counted, total);
            && e.seenCount == |counted|
            && (!e.uniformKnown ==>
                  && |counted| <= 1 && e.uniformSize == 0
                  && e.maxRealLen == (if counted == [] then 0 else counted[0].len)
                  && (counted != [] ==> counted[0].index != 0))
  {
    if counted != [] { UnknownIsOne(counted[..|counted| - 1], total); }
  }

  /** The chunk at which a handle learns a size. */
  lemma LearnsNow(rest: seq<Piece>, last: Piece, total: nat, u: nat)
    requires u <= total && AllFit(rest + [last], total, u)
    requires !EntryOf(rest, total).uniformKnown && EntryOf(rest + [last], total).uniformKnown
    ensures SizeOf(EntryOf(rest + [last], total), total) == u <==> !ShortTwice(rest + [last], u)
  {
    var counted := rest + [last];
    UnknownIsOne(rest, total);
    assert counted[..|rest|] == rest && last in counted;
    if last.index == 0 { assert last.len == u; } else { assert rest == [counted[0]] && counted[0] in counted; }
  }

  /**
   What a handle learns from chunks of one cut, counted in any order and any number of times: the right
   size, if and only if its first two chunks are not the same short last chunk.
   */
  lemma {:induction false} LearnedExactly(counted: seq<Piece>, total: nat, u: nat)
    requires u <= total && AllFit(counted, total, u) && EntryOf(counted, total).uniformKnown
    ensures SizeOf(EntryOf(counted, total), total) == u <==> !ShortTwice(counted, u)
  {
    var rest, last := counted[..|counted| - 1], counted[|counted| - 1];
    assert counted == rest + [last] && forall p :: p in rest ==> p in counted;
    if EntryOf(rest, total).uniformKnown {
      LearnedExactly(rest, total, u);
      assert EntryOf(rest, total).uniformSize == EntryOf(counted, total).uniformSize;
      if |rest| == 1 { FirstIsFull(rest, total, u); }
    } else {
      LearnsNow(rest, last, total, u);
    }
  }

  /** A handle that knows the size from one chunk has counted the first chunk of the message. */
  lemma FirstIsFull(counted: seq<Piece>, total: nat, u: nat)
    requires |counted| == 1 && EntryOf(counted, total).uniformKnown && AllFit(counted, total, u) && u <= total
    ensures counted[0].len == u
  {
    assert counted[..0] == [] && counted[0] in counted;
  }

  // ----- placing a chunk

  /** Recorded chunks keep their bytes when a new chunk of the same cut is written, fully or in part. */
  lemma PatchKeepsFile(ps: seq<Piece>, kept: map<nat, Bytes>, content: map<nat, Bytes>, file: Bytes, total: nat,
      u: nat, p: Piece, bytes: Bytes)
    requires RecordsOk(ps, kept, content) && FileOk(ps, kept, content, file, total, Some(u)) && |file| == total
    requires AllFit(ps, total, u) && Fits(p, total, u) && p.index !in content && |bytes| <= p.len
    ensures Times(p.index, u) + |bytes| <= |file|
    ensures FileOk(ps, kept, content, Patch(file, Times(p.index, u), bytes), total, Some(u))
  {
    RegionInside(p, total, u);
    forall k | 0 <= k < |ps| && ps[k].index !in kept
      ensures InFile(Patch(file, Times(p.index, u), bytes), Times(ps[k].index, u), content[ps[k].index])
    {
      assert ps[k] in ps;
      RegionsDisjoint(p, ps[k], total, u);
      PatchKeeps(file, Times(p.index, u), bytes, Times(ps[k].index, u), content[ps[k].index]);
    }
  }

  /** The offset at which an entry places a chunk that fits its size. */
  lemma OffsetIs(p: Piece, total: nat, size: nat)
    requires Fits(p, total, if size == 0 then total else size)
    ensures (if p.index == 0 then 0 else p.index * size) == Times(p.index, if size == 0 then total else size)
  {
    if p.index > 0 { TimesMonotone(1, p.index, if size == 0 then total else size); }
    TimesIs(p.index, size);
  }

  lemma ResizeKeepsFile(ps: seq<Piece>, kept: map<nat, Bytes>, content: map<nat, Bytes>, file: Bytes, total: nat,
      cut: Option<nat>)
    requires RecordsOk(ps, kept, content) && FileOk(ps, kept, content, file, total, cut) && |file| != total
    ensures FileOk(ps, kept, content, Resize(file, total), total, cut)
  {}

  // ----- recording a chunk

  lemma DeterminedMore(ps: seq<Piece>, p: Piece)
    requires Determined(ps)
    ensures Determined(ps + [p])
  {
    if HasZero(ps) {
      var z :| z in ps && z.index == 0;
      assert z in ps + [p];
    }
  }

  lemma RecordsMore(ps: seq<Piece>, kept: map<nat, Bytes>, content: map<nat, Bytes>, p: Piece, data: Bytes)
    requires RecordsOk(ps, kept, content) && p.index !in content && |data| == p.len
    ensures RecordsOk(ps + [p], kept, content[p.index := data])
    ensures RecordsOk(ps + [p], kept[p.index := data], content[p.index := data])
  {
    var all, after := ps + [p], content[p.index := data];
    forall k | 0 <= k < |all| ensures all[k].index in after && |after[all[k].index]| == all[k].len {
      if k < |ps| { assert all[k] == ps[k]; }
    }
    forall i | i in after ensures exists k :: 0 <= k < |all| && all[k].index == i {
      if i in content {
        var k :| 0 <= k < |ps| && ps[k].index == i;
        assert all[k].index == i;
      } else {
        assert all[|ps|].index == i;
      }
    }
  }

  /** A new record with its bytes in the record, or already in the file. */
  lemma CommitKeeps(ps: seq<Piece>, kept: map<nat, Bytes>, content: map<nat, Bytes>, file: Bytes, total: nat,
      cut: Option<nat>, p: Piece, data: Bytes, placed: bool)
    requires RecordsOk(ps, kept, content) && FileOk(ps, kept, content, file, total, cut)
    requires p.index !in content && |data| == p.len
    requires placed ==> cut.Some? && |file| == total && InFile(file, Times(p.index, cut.value), data)
    ensures var kept' := if placed then kept else kept[p.index := data];
            && RecordsOk(ps + [p], kept', content[p.index := data])
            && FileOk(ps + [p], kept', content[p.index := data], file, total, cut)
  {
    var all, after, kept' := ps + [p], content[p.index := data], if placed then kept else kept[p.index := data];
    RecordsMore(ps, kept, content, p, data);
    forall k | 0 <= k < |all| && all[k].index !in kept'
      ensures cut.Some? && |file| == total && InFile(file, Times(all[k].index, cut.value), after[all[k].index])
    {
      if k < |ps| { assert all[k] == ps[k] && ps[k].index in content; }
    }
  }

  // ----- the finished file

  /** The chunks in index order. */
  ghost function Assembled(content: map<nat, Bytes>, n: nat): Bytes
    requires forall i: nat :: i < n ==> i in content
  {
    if n == 0 then [] else Assembled(content, n - 1) + content[n - 1]
  }

  ghost predicate AllInFile(content: map<nat, Bytes>, n: nat, file: Bytes, u: nat) {
    forall i: nat :: i < n ==>
        i in content && Fits(Piece(i, |content[i]|), |file|, u) && InFile(file, Times(i, u), content[i])
  }

  lemma NextPart(file: Bytes, start: nat, end: nat)
    requires start <= end <= |file|
    ensures file[..end] == file[..start] + file[start..end]
  {}

  /** Chunk `i` follows the part of the file before it; it is full, or it ends the file. */
  lemma PartOf(content: map<nat, Bytes>, n: nat, file: Bytes, u: nat, i: nat)
    requires AllInFile(content, n, file, u) && i < n
    ensures Times(i, u) + |content[i]| <= |file|
    ensures file[..Times(i, u) + |content[i]|] == file[..Times(i, u)] + content[i]
    ensures |content[i]| == Min(u, |file| - Times(i, u))
  {
    assert Fits(Piece(i, |content[i]|), |file|, u);
    NextPart(file, Times(i, u), Times(i, u) + |content[i]|);
  }

  /** A chunk that is not the last reaches to the beginning of the next. */
  lemma FullPart(content: map<nat, Bytes>, n: nat, file: Bytes, u: nat, i: nat)
    requires AllInFile(content, n, file, u) && i + 1 < n
    ensures Times(i + 1, u) <= |file| && file[..Times(i + 1, u)] == file[..Times(i, u)] + content[i]
  {
    PartOf(content, n, file, u, i);
    PartOf(content, n, file, u, i + 1);
    assert Times(i + 1, u) == Times(i, u) + |content[i]|;
  }

  lemma {:induction false} FilePrefix(content: map<nat, Bytes>, n: nat, file: Bytes, u: nat, i: nat)
    requires AllInFile(content, n, file, u) && i < n
    ensures Times(i, u) <= |file| && Assembled(content, i) == file[..Times(i, u)]
    decreases i
  {
    if i > 0 {
      FilePrefix(content, n, file, u, i - 1);
      FullPart(content, n, file, u, i - 1);
    }
  }

  /** A file that holds every chunk at its place is the chunks in index order. */
  lemma FileIsAssembled(content: map<nat, Bytes>, n: nat, file: Bytes, u: nat)
    requires MakesUp(n, |file|, u) && AllInFile(content, n, file, u)
    ensures file == Assembled(content, n)
  {
    FilePrefix(content, n, file, u, n - 1);
    PartOf(content, n, file, u, n - 1);
    LastPart(file, Times(n - 1, u), content[n - 1]);
  }

  lemma LastPart(file: Bytes, start: nat, part: Bytes)
    requires start + |part| == |file| && file[..start + |part|] == file[..start] + part
    ensures file == file[..start] + part
  {
    assert file[..|file|] == file;
  }

  /** All chunks of a complete layout are there. */
  lemma CompleteHasAll(ps: seq<Piece>, total: nat, u: nat, i: nat)
    requires total >= 1 && u >= 1 && GoodLayout(ps, total) && AllFit(ps, total, u) && MakesUp(|ps|, total, u)
    requires i < |ps|
    ensures exists k :: 0 <= k < |ps| && ps[k].index == i
  {
    var s := Sort(ps);
    CountMakesUp(|ps|, total, u);
    SortSame(ps, total, u);
    SortIncreasing(ps);
    EveryPiece(s, total, u);
    SumBound(s, total, u);
    SortMembers(ps, s[i]);
    assert s[i] in s;
  }

  /** If every record's bytes are in the file and no chunk is missing, the file is the message. */
  lemma CompleteFile(ps: seq<Piece>, content: map<nat, Bytes>, file: Bytes, u: nat)
    requires RecordsOk(ps, map[], content) && u >= 1 && |file| >= 1
    requires GoodLayout(ps, |file|) && AllFit(ps, |file|, u) && MakesUp(|ps|, |file|, u)
    requires forall k :: 0 <= k < |ps| ==> InFile(file, Times(ps[k].index, u), content[ps[k].index])
    ensures AllInFile(content, |ps|, file, u) && file == Assembled(content, |ps|)
  {
    forall i: nat | i < |ps| ensures i in content && Fits(Piece(i, |content[i]|), |file|, u)
        && InFile(file, Times(i, u), content[i]) {
      CompleteHasAll(ps, |file|, u, i);
      var k :| 0 <= k < |ps| && ps[k].index == i;
      assert ps[k] == Piece(i, |content[i]|) && ps[k] in ps;
    }
    FileIsAssembled(content, |ps|, file, u);
  }

  /** Every accepted chunk is a piece of the layout. */
  lemma AcceptedFits(ps: seq<Piece>, kept: map<nat, Bytes>, content: map<nat, Bytes>, total: nat, u: nat, i: nat)
    requires RecordsOk(ps, kept, content) && AllFit(ps, total, u) && i in content
    ensures Fits(Piece(i, |content[i]|), total, u) && Times(i, u) + |content[i]| <= total
  {
    var k :| 0 <= k < |ps| && ps[k].index == i;
    assert ps[k] == Piece(i, |content[i]|) && ps[k] in ps;
    RegionInside(ps[k], total, u);
  }

  /** Writing one accepted chunk to its place, fully or in part, keeps the others that are in the file. */
  lemma MigrateKeeps(ps: seq<Piece>, kept: map<nat, Bytes>, content: map<nat, Bytes>, file: Bytes, total: nat,
      u: nat, i: nat, n: nat, j: nat)
    requires RecordsOk(ps, kept, content) && AllFit(ps, total, u) && |file| == total
    requires i in content && j in content && i != j && n <= |content[i]| && InFile(file, Times(j, u), content[j])
    ensures Times(i, u) + |content[i]| <= total
    ensures InFile(Patch(file, Times(i, u), content[i][..n]), Times(j, u), content[j])
  {
    AcceptedFits(ps, kept, content, total, u, i);
    AcceptedFits(ps, kept, content, total, u, j);
    RegionsDisjoint(Piece(i, |content[i]|), Piece(j, |content[j]|), total, u);
    PatchKeeps(file, Times(i, u), content[i][..n], Times(j, u), content[j]);
  }

  /** One write of a migration, which may stop after `n` bytes. */
  lemma MigrateStep(ps: seq<Piece>, kept: map<nat, Bytes>, content: map<nat, Bytes>, file: Bytes, total: nat,
      u: nat, i: nat, n: nat)
    requires RecordsOk(ps, kept, content) && AllFit(ps, total, u)
    requires |file| == total && FileOk(ps, kept, content, file, total, Some(u))
    requires i in kept && n <= |kept[i]|
    ensures Times(i, u) + |kept[i]| <= |file|
    ensures var after := Patch(file, Times(i, u), kept[i][..n]);
            && FileOk(ps, kept, content, after, total, Some(u))
            && (n == |kept[i]| ==> InFile(after, Times(i, u), content[i]))
            && (forall j :: j in content && j != i && InFile(file, Times(j, u), content[j]) ==>
                  InFile(after, Times(j, u), content[j]))
  {
    AcceptedFits(ps, kept, content, total, u, i);
    var bytes := kept[i][..n];
    PatchWrites(file, Times(i, u), bytes);
    assert n == |kept[i]| ==> bytes == content[i];
    var after := Patch(file, Times(i, u), bytes);
    forall j | j in content && j != i && InFile(file, Times(j, u), content[j])
      ensures InFile(after, Times(j, u), content[j])
    {
      MigrateKeeps(ps, kept, content, file, total, u, i, n, j);
    }
  }

  /** `m` is the largest size of a piece. */
  ghost predicate IsLargest(ps: seq<Piece>, m: nat) {
    (exists k :: 0 <= k < |ps| && ps[k].len == m) && forall k :: 0 <= k < |ps| ==> ps[k].len <= m
  }

  /** The largest piece of a determined layout has the uniform size. */
  lemma LargestIsUniform(ps: seq<Piece>, total: nat, u: nat, m: nat)
    requires LayoutOk(ps, total, u) && Determined(ps)
    requires IsLargest(ps, m)
    ensures m == u
  {
    var k :| 0 <= k < |ps| && ps[k].len == m;
    assert ps[k] in ps;
    if HasZero(ps) {
      var i :| 0 <= i < |ps| && ps[i] == Piece(0, u);
    } else {
      var x :| x in ps && x.len == u;
    }
  }

  /** The accepted chunks of a complete message are exactly those below the expected count. */
  lemma CompleteContent(ps: seq<Piece>, kept: map<nat, Bytes>, content: map<nat, Bytes>, total: nat, u: nat, i: nat)
    requires RecordsOk(ps, kept, content) && total >= 1 && u >= 1 && LayoutOk(ps, total, u) && Determined(ps)
    requires MakesUp(|ps|, total, u)
    ensures i in content <==> i < |ps|
  {
    if i < |ps| { CompleteHasAll(ps, total, u, i); }
    if i in content {
      AcceptedFits(ps, kept, content, total, u, i);
      if i >= |ps| { TimesMonotone(|ps|, i, u); }
    }
  }

  /** `content` holds exactly the chunks below `n`, and `f` is their bytes in index order. */
  ghost predicate IsMessage(content: map<nat, Bytes>, n: nat, f: Bytes) {
    (forall i: nat :: i in content <==> i < n) && f == Assembled(content, n)
  }

  lemma MessageComplete(ps: seq<Piece>, kept: map<nat, Bytes>, content: map<nat, Bytes>, file: Bytes, u: nat)
    requires RecordsOk(ps, kept, content) && u >= 1 && |file| >= 1 && LayoutOk(ps, |file|, u) && Determined(ps)
    requires MakesUp(|ps|, |file|, u)
    requires forall k :: 0 <= k < |ps| ==> InFile(file, Times(ps[k].index, u), content[ps[k].index])
    ensures IsMessage(content, |ps|, file)
  {
    forall i: nat ensures i in content <==> i < |ps| { CompleteContent(ps, kept, content, |file|, u, i); }
    CompleteFile(ps, content, file, u);
  }
}
