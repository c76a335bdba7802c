/**
 Two ways in which the store of `src/db/db.worker.ts` reports a message as complete and serves a file
 that is not the message: a commit that fails after the open handle has counted the short last chunk,
 and a read before the chunk size is determined. Ten bytes in chunks of six; the sender is honest.
 */
module ReceiveWitness {
  import opened Wrappers
  import opened Arithmetic
  import opened Bytes
  import opened ReceiveLayout
  import opened Reassembly
  import opened ReceiveBooks
  import opened ReceiveHonest
  import opened ReceiveDisk
  import opened ReceiveStore

  const MESSAGE: Bytes := [1, 2, 3, 4, 5, 6, 7, 8, 9, 10]
  const MANIFEST := Manifest(10, 1, "ten bytes")
  const FIRST := Chunk(1, MANIFEST, 0, 6, [1, 2, 3, 4, 5, 6], true)
  const LAST := Chunk(1, MANIFEST, 1, 4, [7, 8, 9, 10], true)

  const FINE := Env(true, 6, Commits)
  const FAILING := Env(true, 6, Throws)

  /** What is served instead. */
  const SERVED: Bytes := [1, 2, 3, 4, 5, 6, 9, 10, 0, 0]

  const ZEROS: Bytes := seq(10, _ => 0)
  const SHIFTED: Bytes := [0, 0, 0, 0, 7, 8, 9, 10, 0, 0]

  /** Both chunks are cut from the message. */
  lemma ChunksAreCut()
    ensures CutFrom(FIRST, MANIFEST, MESSAGE, 6) && CutFrom(LAST, MANIFEST, MESSAGE, 6)
  {
    assert Times(1, 6) == 6;
    assert PartAt(MESSAGE, 6, 0) == FIRST.data;
    assert PartAt(MESSAGE, 6, 1) == LAST.data;
  }

  /** Both are accepted when they come, the last one first. */
  lemma BothFit()
    ensures IsNew(None, [], LAST) && IsNew(Some(MANIFEST), [Piece(1, 4)], FIRST)
    ensures AllThere(Some(MANIFEST), [Piece(1, 4), Piece(0, 6)])
  {
    ChunksAreCut();
    var one, two := [Piece(1, 4)], [Piece(1, 4), Piece(0, 6)];
    CutIsGood(one, 10, 6);
    CutIsGood(two, 10, 6);
    assert [] + [LAST.Place()] == one && one + [FIRST.Place()] == two;
    assert Piece(0, 6) in two && HasZero(two);
    assert CompleteBy(10, two, 6);
  }

  lemma Shift()
    ensures Overwrite(ZEROS, 4, LAST.data) == SHIFTED && Overwrite(SHIFTED, 0, FIRST.data) == SERVED
    ensures SERVED != MESSAGE
  {
    assert SERVED[6] != MESSAGE[6];
  }

  const COUNTED := Disk(None, [], map[], ZEROS, Some(Entry(0, false, 4, 1)))
  const MISPLACED := Disk(Some(MANIFEST), [Piece(1, 4)], map[], SHIFTED, Some(Entry(4, true, 4, 2)))

  /** The commit of the last chunk fails; the handle stays open and has counted it. */
  lemma FirstTry()
    ensures Stored(EMPTY, LAST, FAILING) == COUNTED
  {
    BothFit();
    assert Sized([], 10) == ZEROS;
  }

  /** It comes again, is counted as a second chunk, and goes to the wrong place without its bytes in the record. */
  lemma SecondTry()
    ensures Stored(COUNTED, LAST, FINE) == MISPLACED
  {
    BothFit();
    Shift();
    assert LAST.data[..4] == LAST.data;
    assert [] + [LAST.Place()] == [Piece(1, 4)];
  }

  /** The first chunk completes the message. */
  lemma ThenFirst(d: Disk)
    requires d == MISPLACED || d == Disk(Some(MANIFEST), [Piece(1, 4)], map[], SHIFTED, None)
    ensures var t := Stored(d, FIRST, FINE);
            && t.file == SERVED && t.kept == map[]
            && t.manifest == Some(MANIFEST) && t.pieces == [Piece(1, 4), Piece(0, 6)]
  {
    BothFit();
    Shift();
    assert FIRST.data[..6] == FIRST.data;
    assert [Piece(1, 4)] + [FIRST.Place()] == [Piece(1, 4), Piece(0, 6)];
  }

  /** A failed commit: completion is reported, and the file served is not the message. */
  method FailedCommit() returns (done: bool, f: Option<Bytes>)
    ensures done && f == Some(SERVED) && SERVED != MESSAGE
  {
    var store := new ReceiveFile();
    FirstTry();
    SecondTry();
    ThenFirst(MISPLACED);
    BothFit();
    Shift();
    var r := store.StoreReceiveChunk(LAST, FAILING);
    r := store.StoreReceiveChunk(LAST, FINE);
    r := store.StoreReceiveChunk(FIRST, FINE);
    done := r.Done? && r.progress.complete;
    f := store.GetReceiveFile(true, None, true, NOTHING);
  }

  /** The handle of that run has taken the short last chunk for a full one. */
  lemma FailedCommitMislearns()
    ensures Mislearns(Accepted([Arrive(LAST, FAILING)]), Arrive(LAST, FINE), 6)
  {
    BothFit();
    var events := [Arrive(LAST, FAILING)];
    assert events[..0] == [];
    assert Accepted(events) == Accept(NOTHING, events[0]);
  }

  const WAITING := Disk(Some(MANIFEST), [Piece(1, 4)], map[1 := LAST.data], ZEROS, Some(Entry(0, false, 4, 1)))

  /** The last chunk alone waits in its record. */
  lemma LastWaits()
    ensures Stored(EMPTY, LAST, FINE) == WAITING
  {
    BothFit();
    assert Sized([], 10) == ZEROS;
    assert [] + [LAST.Place()] == [Piece(1, 4)];
  }

  /** A read before the first chunk: the last one is moved to the wrong place, and the message never recovers. */
  method EarlyRead() returns (done: bool, f: Option<Bytes>)
    ensures done && f == Some(SERVED) && SERVED != MESSAGE
  {
    var store := new ReceiveFile();
    LastWaits();
    ThenFirst(Disk(Some(MANIFEST), [Piece(1, 4)], map[], SHIFTED, None));
    BothFit();
    Shift();
    var r := store.StoreReceiveChunk(LAST, FINE);
    assert store.pieces == [Piece(1, 4)] && store.kept.Keys == {1};
    f := store.GetReceiveFile(true, None, true, NOTHING);
    assert store.View() == Disk(Some(MANIFEST), [Piece(1, 4)], map[], SHIFTED, None);
    r := store.StoreReceiveChunk(FIRST, FINE);
    done := r.Done? && r.progress.complete;
    f := store.GetReceiveFile(true, None, true, NOTHING);
  }
}
