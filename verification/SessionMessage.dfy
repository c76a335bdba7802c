/**
 Splitting a message into fixed-size records and joining them again: `prepareMessage` and
 `validateAndJoinRecords` of `src/session.ts`. The content hash is symbolic.
 */
module SessionMessage {
  import opened Wrappers
  import opened Arithmetic
  import opened Bytes
  import opened Seqs
  import Merkle
  import MerkleLoops

  const MESSAGE_TYPE_UNKNOWN: nat := 64
  const SESSION_METADATA_NAME := "p2party-session"

  datatype Digest = Sha512(content: Bytes)

  datatype Metadata = Metadata(
    schemaVersion: nat, messageType: nat, name: string, date: int, hash: Digest,
    totalSize: nat, chunkStartIndex: nat, chunkEndIndex: nat, chunkIndex: nat)

  type Chunk = s: Bytes | |s| == CHUNK_LEN witness seq(CHUNK_LEN, _ => 0)

  datatype Record = Record(metadata: Metadata, chunk: Chunk)

  datatype Error =
    | NoFrames | WrongCount | NotSafe | Unsupported | Inconsistent
    | BadRange | BadLength | Duplicate | HashMismatch

  /** `Math.max(1, Math.ceil(totalSize / CHUNK_LEN))`. */
  function TotalChunks(totalSize: nat): (n: nat)
    ensures n >= 1 && totalSize <= n * CHUNK_LEN
    ensures n > 1 ==> (n - 1) * CHUNK_LEN < totalSize
  {
    if totalSize == 0 then 1 else (totalSize + CHUNK_LEN - 1) / CHUNK_LEN
  }

  /** How many bytes of chunk `index` belong to the message. */
  function UsefulLength(totalSize: nat, index: nat): (n: nat)
    ensures n <= CHUNK_LEN
  {
    Min(CHUNK_LEN, if totalSize - index * CHUNK_LEN > 0 then totalSize - index * CHUNK_LEN else 0)
  }

  function MetadataOf(plaintext: Bytes, index: nat): Metadata {
    Metadata(1, MESSAGE_TYPE_UNKNOWN, SESSION_METADATA_NAME, 0, Sha512(plaintext),
             |plaintext|, 0, UsefulLength(|plaintext|, index), index)
  }

  // ----- splitting

  /** The part of the message in chunk `index`. */
  function Part(plaintext: Bytes, index: nat): (s: Bytes)
    requires index * CHUNK_LEN <= |plaintext|
    ensures |s| == UsefulLength(|plaintext|, index)
  {
    plaintext[index * CHUNK_LEN..index * CHUNK_LEN + UsefulLength(|plaintext|, index)]
  }

  lemma PartInside(totalSize: nat, index: nat)
    requires index < TotalChunks(totalSize)
    ensures index * CHUNK_LEN + UsefulLength(totalSize, index) <= totalSize
  {}

  /** The random bytes of a chunk with the message part laid over their beginning. */
  function Filled(plaintext: Bytes, padding: Chunk, index: nat): Chunk
    requires index < TotalChunks(|plaintext|)
  {
    PartInside(|plaintext|, index);
    var part := Part(plaintext, index);
    part + padding[|part|..]
  }

  /** The records of a message; `paddings` are the random bytes drawn for its chunks. */
  function Prepared(plaintext: Bytes, paddings: seq<Chunk>): seq<Record>
    requires |paddings| == TotalChunks(|plaintext|)
  {
    seq(|paddings|, i requires 0 <= i < |paddings| =>
      Record(MetadataOf(plaintext, i), Filled(plaintext, paddings[i], i)))
  }

  method SplitMessage(plaintext: Bytes, paddings: seq<Chunk>) returns (records: seq<Record>)
    requires |paddings| == TotalChunks(|plaintext|)
    ensures records == Prepared(plaintext, paddings)
  {
    var chunks: seq<Chunk> := [];
    for index := 0 to TotalChunks(|plaintext|)
      invariant |chunks| == index && forall i :: 0 <= i < index ==> chunks[i] == Filled(plaintext, paddings[i], i)
    {
      PartInside(|plaintext|, index);
      var start, usefulLength := index * CHUNK_LEN, UsefulLength(|plaintext|, index);
      chunks := chunks + [plaintext[start..start + usefulLength] + paddings[index][usefulLength..]];
    }
    records := [];
    for index := 0 to |chunks|
      invariant |records| == index && forall i :: 0 <= i < index ==>
          records[i] == Record(MetadataOf(plaintext, i), chunks[i])
    {
      records := records + [Record(MetadataOf(plaintext, index), chunks[index])];
    }
  }

  /** The leaf hashes of the chunks. */
  function LeavesOf(records: seq<Record>): (s: seq<Merkle.Digest<Chunk>>)
    ensures |s| == |records|
  {
    seq(|records|, i requires 0 <= i < |records| => Merkle.Leaf(records[i].chunk))
  }

  /** `getMerkleRoot`, on a copy of the leaves. */
  method RootOf(leaves: seq<Merkle.Digest<Chunk>>) returns (root: Merkle.Digest<Chunk>)
    requires |leaves| >= 1
    ensures root == Merkle.Root(leaves)
  {
    var copy := new Merkle.Digest<Chunk>[|leaves|](i requires 0 <= i < |leaves| => leaves[i]);
    assert copy[..] == leaves;
    root := MerkleLoops.GetMerkleRoot(copy);
  }

  /** `getMerkleProof`, on a copy of the leaves: it verifies against the root. A lone leaf proves itself. */
  method ProofOf(leaves: seq<Merkle.Digest<Chunk>>, leaf: Merkle.Digest<Chunk>)
      returns (proof: seq<Merkle.Artifact<Chunk>>)
    requires leaf in leaves
    ensures |leaves| == 1 ==> proof == [Merkle.Artifact(leaf, 0)]
    ensures |leaves| > 1 ==> proof == Merkle.Path(leaves, MerkleLoops.FirstIndex(leaves, leaf))
    ensures Merkle.Verify(leaf, Merkle.Root(leaves), proof) == 0
  {
    if |leaves| == 1 { return [Merkle.Artifact(leaf, 0)]; }
    var copy := new Merkle.Digest<Chunk>[|leaves|](i requires 0 <= i < |leaves| => leaves[i]);
    assert copy[..] == leaves;
    var buffer := new Merkle.Artifact<Chunk>[Merkle.CeilLog2(|leaves|)](_ => Merkle.Artifact(leaf, 0));
    var r := MerkleLoops.GetMerkleProof(copy, leaf, buffer);
    proof := buffer[..r / MerkleLoops.ARTIFACT_BYTES];
    Merkle.ProofsComplete(leaves, MerkleLoops.FirstIndex(leaves, leaf));
  }

  /** The proof shows that the record's chunk is in the tree with this root. */
  predicate Proven(root: Merkle.Digest<Chunk>, record: Record, proof: seq<Merkle.Artifact<Chunk>>) {
    Merkle.Verify(Merkle.Leaf(record.chunk), root, proof) == 0
  }

  /** `prepareMessage`: the records of the message, its Merkle root, and for every record a proof that verifies. */
  method PrepareMessage(plaintext: Bytes, paddings: seq<Chunk>)
    returns (root: Merkle.Digest<Chunk>, records: seq<Record>, proofs: seq<seq<Merkle.Artifact<Chunk>>>)
    requires |paddings| == TotalChunks(|plaintext|)
    ensures records == Prepared(plaintext, paddings) && root == Merkle.Root(LeavesOf(records))
    ensures |proofs| == |records| && forall i :: 0 <= i < |records| ==> Proven(root, records[i], proofs[i])
  {
    records := SplitMessage(plaintext, paddings);
    root := RootOf(LeavesOf(records));
    proofs := ProofsOf(records);
  }

  method ProofAt(records: seq<Record>, index: nat) returns (proof: seq<Merkle.Artifact<Chunk>>)
    requires index < |records|
    ensures Proven(Merkle.Root(LeavesOf(records)), records[index], proof)
  {
    var leaves := LeavesOf(records);
    proof := ProofOf(leaves, leaves[index]);
  }

  method ProofsOf(records: seq<Record>) returns (proofs: seq<seq<Merkle.Artifact<Chunk>>>)
    requires |records| >= 1
    ensures |proofs| == |records|
    ensures forall i :: 0 <= i < |records| ==> Proven(Merkle.Root(LeavesOf(records)), records[i], proofs[i])
  {
    ghost var root := Merkle.Root(LeavesOf(records));
    proofs := [];
    for index := 0 to |records|
      invariant |proofs| == index && forall i :: 0 <= i < index ==> Proven(root, records[i], proofs[i])
    {
      var proof := ProofAt(records, index);
      proofs := proofs + [proof];
    }
  }

  /** Nothing else is proven: a chunk with an accepted proof is a chunk of the message. */
  lemma ProvenIsOfMessage(records: seq<Record>, record: Record, proof: seq<Merkle.Artifact<Chunk>>)
    requires |records| >= 1 && Proven(Merkle.Root(LeavesOf(records)), record, proof)
    ensures exists i :: 0 <= i < |records| && records[i].chunk == record.chunk
  {
    var chunks: seq<Chunk> := seq(|records|, i requires 0 <= i < |records| => records[i].chunk);
    assert Merkle.Leaves<Chunk>(chunks) == LeavesOf(records);
    Merkle.ProofsSound<Chunk>(chunks, record.chunk, proof);
    if chunks == [record.chunk] {
      assert chunks[0] == record.chunk && records[0].chunk == record.chunk;
    } else {
      var i :| 0 <= i < |chunks| && chunks[i] == record.chunk && proof == Merkle.Path(Merkle.Leaves<Chunk>(chunks), i);
      assert records[i].chunk == record.chunk;
    }
  }

  // ----- joining

  predicate Safe(m: Metadata) {
    m.chunkIndex <= MAX_SAFE && m.chunkStartIndex <= MAX_SAFE && m.chunkEndIndex <= MAX_SAFE && m.totalSize <= MAX_SAFE
  }

  /** The metadata of one record is what `prepareMessage` writes for that index, size and hash. */
  predicate Canonical(m: Metadata, totalSize: nat, hash: Digest) {
    && Safe(m)
    && m == Metadata(1, MESSAGE_TYPE_UNKNOWN, SESSION_METADATA_NAME, 0, hash, totalSize, 0,
        UsefulLength(totalSize, m.chunkIndex), m.chunkIndex)
    && m.chunkIndex < TotalChunks(totalSize)
  }

  ghost predicate DistinctIndexes(records: seq<Record>) {
    forall i, j :: 0 <= i < j < |records| ==> records[i].metadata.chunkIndex != records[j].metadata.chunkIndex
  }

  /** A complete set of canonical records of one message, each index once. */
  ghost predicate Complete(records: seq<Record>, totalSize: nat, hash: Digest) {
    && |records| == TotalChunks(totalSize)
    && (forall i :: 0 <= i < |records| ==> Canonical(records[i].metadata, totalSize, hash))
    && DistinctIndexes(records)
  }

  /** `s` holds the useful part of a record at its place. */
  ghost predicate Holds(s: Bytes, r: Record) {
    var m := r.metadata;
    && m.chunkIndex * CHUNK_LEN + m.chunkEndIndex <= |s|
    && m.chunkEndIndex <= CHUNK_LEN
    && s[m.chunkIndex * CHUNK_LEN..m.chunkIndex * CHUNK_LEN + m.chunkEndIndex] == r.chunk[..m.chunkEndIndex]
  }

  /** The records are exactly those of the message `plaintext`, in some order. */
  ghost predicate Accepts(records: seq<Record>, plaintext: Bytes) {
    && Complete(records, |plaintext|, Sha512(plaintext))
    && forall i :: 0 <= i < |records| ==> Holds(plaintext, records[i])
  }

  lemma {:induction false} Pigeonhole(s: set<nat>, n: nat)
    requires (forall x :: x in s ==> x < n) && |s| == n
    ensures forall i: nat :: i < n ==> i in s
    decreases n
  {
    if n > 0 {
      if n - 1 in s {
        Pigeonhole(s - {n - 1}, n - 1);
        forall i: nat | i < n ensures i in s { assert i < n - 1 ==> i in s - {n - 1}; }
      } else {
        BoundedSize(s, n - 1);
      }
    }
  }

  lemma {:induction false} BoundedSize(s: set<nat>, n: nat)
    requires forall x :: x in s ==> x < n
    ensures |s| <= n
    decreases n
  {
    if n > 0 {
      BoundedSize(s - {n - 1}, n - 1);
      if n - 1 !in s { assert s - {n - 1} == s; }
    } else {
      assert s == {};
    }
  }

  lemma {:induction false} IndexSet(records: seq<Record>, n: nat)
    requires n <= |records| && DistinctIndexes(records)
    ensures |set i | 0 <= i < n :: records[i].metadata.chunkIndex| == n
    decreases n
  {
    var s := set i | 0 <= i < n :: records[i].metadata.chunkIndex;
    if n > 0 {
      IndexSet(records, n - 1);
      var rest := set i | 0 <= i < n - 1 :: records[i].metadata.chunkIndex;
      assert s == rest + {records[n - 1].metadata.chunkIndex};
    }
  }

  /** A complete set has exactly one record for every chunk index. */
  lemma EveryIndexOnce(records: seq<Record>, totalSize: nat, hash: Digest, index: nat)
    requires Complete(records, totalSize, hash) && index < TotalChunks(totalSize)
    ensures exists k :: 0 <= k < |records| && records[k].metadata.chunkIndex == index
              && forall j :: 0 <= j < |records| && records[j].metadata.chunkIndex == index ==> j == k
  {
    var s := set i | 0 <= i < |records| :: records[i].metadata.chunkIndex;
    IndexSet(records, |records|);
    Pigeonhole(s, |records|);
    assert index in s;
    var k :| 0 <= k < |records| && records[k].metadata.chunkIndex == index;
  }

  /** The records that the first loop has put into `byIndex`. */
  ghost predicate Collected(records: seq<Record>, n: nat, byIndex: map<nat, Record>)
    requires n <= |records|
  {
    && (forall i :: 0 <= i < n ==>
        records[i].metadata.chunkIndex in byIndex && byIndex[records[i].metadata.chunkIndex] == records[i])
    && (forall x :: x in byIndex ==> exists i :: 0 <= i < n && records[i].metadata.chunkIndex == x)
    && (forall i, j :: 0 <= i < j < n ==> records[i].metadata.chunkIndex != records[j].metadata.chunkIndex)
  }

  /** Whether one record passes the checks of the loop, given the records before it. */
  function CheckRecord(m: Metadata, first: Metadata, expectedChunks: nat, byIndex: map<nat, Record>): Option<Error> {
    if !Safe(m) then Some(NotSafe)
    else if m.schemaVersion != 1 || m.messageType != MESSAGE_TYPE_UNKNOWN || m.name != SESSION_METADATA_NAME
        || m.date != 0 then Some(Unsupported)
    else if m.totalSize != first.totalSize || m.hash != first.hash then Some(Inconsistent)
    else if m.chunkIndex >= expectedChunks || m.chunkStartIndex != 0 then Some(BadRange)
    else if m.chunkEndIndex != UsefulLength(first.totalSize, m.chunkIndex) then Some(BadLength)
    else if m.chunkIndex in byIndex then Some(Duplicate)
    else None
  }

  /** The checks are exactly: canonical metadata, and an index not seen before. */
  lemma CheckIsCanonical(m: Metadata, first: Metadata, byIndex: map<nat, Record>)
    ensures CheckRecord(m, first, TotalChunks(first.totalSize), byIndex).None?
            <==> Canonical(m, first.totalSize, first.hash) && m.chunkIndex !in byIndex
  {}

  lemma CollectMore(records: seq<Record>, i: nat, byIndex: map<nat, Record>)
    requires i < |records| && Collected(records, i, byIndex) && records[i].metadata.chunkIndex !in byIndex
    ensures Collected(records, i + 1, byIndex[records[i].metadata.chunkIndex := records[i]])
  {
    var after := byIndex[records[i].metadata.chunkIndex := records[i]];
    forall x | x in after ensures exists k :: 0 <= k < i + 1 && records[k].metadata.chunkIndex == x {
      if x in byIndex { var k :| 0 <= k < i && records[k].metadata.chunkIndex == x; }
    }
  }

  lemma RepeatedIndex(records: seq<Record>, i: nat, byIndex: map<nat, Record>)
    requires i < |records| && Collected(records, i, byIndex) && records[i].metadata.chunkIndex in byIndex
    ensures !DistinctIndexes(records)
  {
    var k :| 0 <= k < i && records[k].metadata.chunkIndex == records[i].metadata.chunkIndex;
  }

  method CollectRecords(records: seq<Record>) returns (r: Result<map<nat, Record>, Error>)
    requires records != [] && |records| == TotalChunks(records[0].metadata.totalSize)
    ensures r.Ok? <==> Complete(records, records[0].metadata.totalSize, records[0].metadata.hash)
    ensures r.Ok? ==> Collected(records, |records|, r.value)
  {
    var first := records[0].metadata;
    var byIndex: map<nat, Record> := map[];
    for i := 0 to |records|
      invariant Collected(records, i, byIndex)
      invariant forall k :: 0 <= k < i ==> Canonical(records[k].metadata, first.totalSize, first.hash)
    {
      var m := records[i].metadata;
      var error := CheckRecord(m, first, |records|, byIndex);
      CheckIsCanonical(m, first, byIndex);
      if error.Some? {
        if m.chunkIndex in byIndex { RepeatedIndex(records, i, byIndex); }
        return Err(error.value);
      }
      CollectMore(records, i, byIndex);
      byIndex := byIndex[m.chunkIndex := records[i]];
    }
    return Ok(byIndex);
  }

  /** Every byte of the message lies in the useful part of the chunk with its index. */
  lemma ByteInChunk(totalSize: nat, k: nat)
    requires k < totalSize
    ensures k / CHUNK_LEN < TotalChunks(totalSize)
    ensures k % CHUNK_LEN < UsefulLength(totalSize, k / CHUNK_LEN)
  {}

  /** A complete set of records holds at most one message. */
  lemma AcceptsOne(records: seq<Record>, p: Bytes, q: Bytes)
    requires Accepts(records, p) && |q| == |p| && forall i :: 0 <= i < |records| ==> Holds(q, records[i])
    ensures p == q
  {
    forall k | 0 <= k < |p| ensures p[k] == q[k] {
      var index, low := k / CHUNK_LEN, k % CHUNK_LEN;
      ByteInChunk(|p|, k);
      EveryIndexOnce(records, |p|, Sha512(p), index);
      var i :| 0 <= i < |records| && records[i].metadata.chunkIndex == index;
      HoldsByte(p, records[i], low);
      HoldsByte(q, records[i], low);
    }
  }

  lemma HoldsByte(s: Bytes, r: Record, low: nat)
    requires Holds(s, r) && low < r.metadata.chunkEndIndex
    ensures s[r.metadata.chunkIndex * CHUNK_LEN + low] == r.chunk[low]
  {
    var start := r.metadata.chunkIndex * CHUNK_LEN;
    assert s[start..start + r.metadata.chunkEndIndex][low] == r.chunk[..r.metadata.chunkEndIndex][low];
  }

  /** `s` with the useful part of a record written to its place. */
  ghost function Overwritten(s: Bytes, r: Record): Bytes
    requires r.metadata.chunkIndex * CHUNK_LEN + r.metadata.chunkEndIndex <= |s|
    requires r.metadata.chunkEndIndex <= CHUNK_LEN
  {
    var start, end := r.metadata.chunkIndex * CHUNK_LEN, r.metadata.chunkIndex * CHUNK_LEN + r.metadata.chunkEndIndex;
    s[..start] + r.chunk[..r.metadata.chunkEndIndex] + s[end..]
  }

  lemma WriteHolds(s: Bytes, r: Record)
    requires r.metadata.chunkIndex * CHUNK_LEN + r.metadata.chunkEndIndex <= |s|
    requires r.metadata.chunkEndIndex <= CHUNK_LEN
    ensures Holds(Overwritten(s, r), r)
  {}

  /** Chunks do not overlap. */
  lemma WriteKeeps(s: Bytes, r: Record, q: Record)
    requires r.metadata.chunkIndex * CHUNK_LEN + r.metadata.chunkEndIndex <= |s|
    requires r.metadata.chunkEndIndex <= CHUNK_LEN
    requires Holds(s, q) && q.metadata.chunkIndex < r.metadata.chunkIndex
    ensures Holds(Overwritten(s, r), q)
  {
    var start, end := q.metadata.chunkIndex * CHUNK_LEN, q.metadata.chunkIndex * CHUNK_LEN + q.metadata.chunkEndIndex;
    assert Overwritten(s, r)[start..end] == s[start..end];
  }

  lemma ChunkBefore(records: seq<Record>, byIndex: map<nat, Record>, totalSize: nat, hash: Digest, i: nat)
    requires Complete(records, totalSize, hash) && Collected(records, |records|, byIndex) && i < TotalChunks(totalSize)
    ensures i in byIndex && byIndex[i].metadata.chunkIndex == i && byIndex[i] in records
  {
    EveryIndexOnce(records, totalSize, hash, i);
    var k :| 0 <= k < |records| && records[k].metadata.chunkIndex == i;
    assert byIndex[i] == records[k];
  }

  lemma AllHeld(records: seq<Record>, byIndex: map<nat, Record>, totalSize: nat, hash: Digest, s: Bytes)
    requires Complete(records, totalSize, hash) && Collected(records, |records|, byIndex)
    requires forall i: nat :: i < TotalChunks(totalSize) ==> i in byIndex && Holds(s, byIndex[i])
    ensures forall i :: 0 <= i < |records| ==> Holds(s, records[i])
  {
    forall i | 0 <= i < |records| ensures Holds(s, records[i]) {
      assert Canonical(records[i].metadata, totalSize, hash);
    }
  }

  lemma WrittenBefore(records: seq<Record>, byIndex: map<nat, Record>, totalSize: nat, hash: Digest, index: nat,
      s: Bytes, r: Record)
    requires Complete(records, totalSize, hash) && Collected(records, |records|, byIndex)
    requires index < TotalChunks(totalSize)
    requires r.metadata.chunkIndex == index && index * CHUNK_LEN + r.metadata.chunkEndIndex <= |s|
    requires r.metadata.chunkEndIndex <= CHUNK_LEN
    requires forall i: nat :: i < index ==> i in byIndex && Holds(s, byIndex[i])
    ensures forall i: nat :: i < index ==> Holds(Overwritten(s, r), byIndex[i])
  {
    forall i: nat | i < index ensures Holds(Overwritten(s, r), byIndex[i]) {
      ChunkBefore(records, byIndex, totalSize, hash, i);
      WriteKeeps(s, r, byIndex[i]);
    }
  }

  /** Copy the useful part of every record to its place. */
  method WriteRecords(records: seq<Record>, byIndex: map<nat, Record>, totalSize: nat, ghost hash: Digest)
      returns (s: Bytes)
    requires Complete(records, totalSize, hash) && Collected(records, |records|, byIndex)
    ensures |s| == totalSize && forall i :: 0 <= i < |records| ==> Holds(s, records[i])
  {
    var plaintext := new byte[totalSize](_ => 0);
    for index := 0 to TotalChunks(totalSize)
      invariant forall i: nat :: i < index ==> i in byIndex && Holds(plaintext[..], byIndex[i])
    {
      ChunkBefore(records, byIndex, totalSize, hash, index);
      var record := byIndex[index];
      assert Canonical(record.metadata, totalSize, hash);
      PartInside(totalSize, index);
      WrittenBefore(records, byIndex, totalSize, hash, index, plaintext[..], record);
      WriteHolds(plaintext[..], record);
      WriteRecord(plaintext, record);
    }
    s := plaintext[..];
    AllHeld(records, byIndex, totalSize, hash, s);
  }

  /** `plaintext.set(record.chunk.subarray(0, usefulLength), index * CHUNK_LEN)`. */
  method WriteRecord(buffer: array<byte>, r: Record)
    requires r.metadata.chunkIndex * CHUNK_LEN + r.metadata.chunkEndIndex <= buffer.Length
    requires r.metadata.chunkEndIndex <= CHUNK_LEN
    modifies buffer
    ensures buffer[..] == Overwritten(old(buffer[..]), r)
  {
    var offset := r.metadata.chunkIndex * CHUNK_LEN;
    forall k | 0 <= k < r.metadata.chunkEndIndex { buffer[offset + k] := r.chunk[k]; }
  }

  method ValidateAndJoinRecords(records: seq<Record>) returns (r: Result<Bytes, Error>)
    ensures forall p: Bytes :: Accepts(records, p) ==> r == Ok(p)
    ensures r.Ok? ==> Accepts(records, r.value)
  {
    if records == [] { return Err(NoFrames); }
    var first := records[0].metadata;
    assert forall p: Bytes :: Accepts(records, p) ==> Canonical(first, |p|, Sha512(p));
    if first.totalSize > MAX_SAFE { return Err(NotSafe); }
    if |records| != TotalChunks(first.totalSize) { return Err(WrongCount); }
    var byIndex := CollectRecords(records);
    if byIndex.Err? { return Err(byIndex.error); }
    var plaintext := WriteRecords(records, byIndex.value, first.totalSize, first.hash);
    forall p: Bytes | Accepts(records, p) ensures p == plaintext {
      assert Canonical(records[0].metadata, |p|, Sha512(p));
      AcceptsOne(records, p, plaintext);
    }
    if Sha512(plaintext) != first.hash { return Err(HashMismatch); }
    return Ok(plaintext);
  }

  // ----- any order

  /** `order` lists every position below `n` once. */
  ghost predicate IsOrder(order: seq<nat>, n: nat) {
    |order| == n && NoDup(order) && forall i :: 0 <= i < n ==> order[i] < n
  }

  ghost function Reordered(records: seq<Record>, order: seq<nat>): seq<Record>
    requires IsOrder(order, |records|)
  {
    seq(|order|, i requires 0 <= i < |order| => records[order[i]])
  }

  lemma PreparedHolds(plaintext: Bytes, paddings: seq<Chunk>, i: nat)
    requires |plaintext| <= MAX_SAFE && |paddings| == TotalChunks(|plaintext|) && i < |paddings|
    ensures var r := Prepared(plaintext, paddings)[i];
            Canonical(r.metadata, |plaintext|, Sha512(plaintext)) && Holds(plaintext, r) && r.metadata.chunkIndex == i
  {
    PartInside(|plaintext|, i);
    var r := Prepared(plaintext, paddings)[i];
    assert r.chunk[..r.metadata.chunkEndIndex] == Part(plaintext, i);
  }

  /**
   For every plaintext, every padding and every order of its records, joining returns the plaintext
   (`ValidateAndJoinRecords` returns `Ok(p)` for the `p` it accepts).
   */
  lemma AnyOrderJoins(plaintext: Bytes, paddings: seq<Chunk>, order: seq<nat>)
    requires |plaintext| <= MAX_SAFE && |paddings| == TotalChunks(|plaintext|) && IsOrder(order, |paddings|)
    ensures Accepts(Reordered(Prepared(plaintext, paddings), order), plaintext)
  {
    var rs := Reordered(Prepared(plaintext, paddings), order);
    forall i | 0 <= i < |rs|
      ensures Canonical(rs[i].metadata, |plaintext|, Sha512(plaintext)) && Holds(plaintext, rs[i])
      ensures rs[i].metadata.chunkIndex == order[i]
    {
      PreparedHolds(plaintext, paddings, order[i]);
    }
  }
}
