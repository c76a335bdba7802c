/** The in-place loops of `src/cryptography/merkle.c`, proved against the functions of `Merkle`. */
module MerkleLoops {
  import opened Merkle

  /** Bytes per proof artifact: a SHA-512 digest and its position. */
  const ARTIFACT_BYTES: nat := 65

  lemma {:induction false} ParentsAt<T>(s: seq<Digest<T>>, j: nat)
    requires j < (|s| + 1) / 2
    ensures Parents(s)[j] == if 2 * j + 1 < |s| then Node(s[2 * j], s[2 * j + 1]) else s[2 * j]
  {
    if |s| > 1 && j > 0 { ParentsAt(s[2..], j - 1); }
  }

  /** What the loops put at position `j`: the hash of the pair, or the promoted node. */
  lemma ParentAt<T>(level: seq<Digest<T>>, parents: seq<Digest<T>>, j: nat)
    requires parents == Parents(level) && 2 * j < |level|
    ensures j < |parents|
    ensures parents[j] == if 2 * j + 1 == |level| then level[2 * j] else Node(level[2 * j], level[2 * j + 1])
  {
    ParentsAt(level, j);
  }

  /** One level of `get_merkle_root`, written over the front of the array. */
  method RootLevel<T>(leaves: array<Digest<T>>, n: nat)
    requires 1 < n <= leaves.Length
    modifies leaves
    ensures leaves[..(n + 1) / 2] == Parents(old(leaves[..n]))
  {
    ghost var level := leaves[..n];
    ghost var parents := Parents(level);
    var odd := n % 2 != 0;
    var i, j := 0, 0;
    while i < n
      invariant i == 2 * j && j <= (n + 1) / 2 == |parents|
      invariant forall m :: 0 <= m < j ==> leaves[m] == parents[m]
      invariant forall m :: i <= m < n ==> leaves[m] == level[m]
    {
      ParentAt(level, parents, j);
      if odd && i + 1 == n {
        leaves[j] := leaves[i];
      } else {
        leaves[j] := Node(leaves[i], leaves[i + 1]);
      }
      i, j := i + 2, j + 1;
    }
    assert leaves[..j] == parents;
  }

  /** `get_merkle_root`. */
  method GetMerkleRoot<T>(leaves: array<Digest<T>>) returns (root: Digest<T>)
    requires leaves.Length >= 1
    modifies leaves
    ensures root == Root(old(leaves[..]))
  {
    var n := leaves.Length;
    assert leaves[..n] == leaves[..];
    while n > 1
      invariant 1 <= n <= leaves.Length
      invariant Root(leaves[..n]) == Root(old(leaves[..]))
    {
      RootLevel(leaves, n);
      n := (n + 1) / 2;
    }
    root := leaves[0];
  }

  /** Where the proof loop starts: the first leaf that equals the element. */
  function FirstIndex<T(==)>(s: seq<T>, x: T): (i: nat)
    ensures x in s ==> i < |s| && s[i] == x
    ensures i <= |s| && forall j :: 0 <= j < i ==> s[j] != x
    ensures x !in s ==> i == |s|
  {
    if s == [] then 0 else if s[0] == x then 0 else 1 + FirstIndex(s[1..], x)
  }

  /** Search for the element. */
  method FindLeaf<T(==)>(leaves: array<Digest<T>>, element: Digest<T>) returns (index: int)
    ensures element !in leaves[..] ==> index == -1
    ensures element in leaves[..] ==> index == FirstIndex(leaves[..], element)
  {
    index := -1;
    for i := 0 to leaves.Length
      invariant index == -1
      invariant forall m :: 0 <= m < i ==> leaves[m] != element
    {
      if leaves[i] == element {
        ghost var first := FirstIndex(leaves[..], element);
        assert leaves[..][i] == element && leaves[..][first] == element;
        return i;
      }
    }
  }

  /**
   One level of `get_merkle_proof`: hash the level in place and emit at most one artifact, for the
   element of interest `e`.
   */
  method ProofLevel<T>(leaves: array<Digest<T>>, n: nat, e: nat, proof: array<Artifact<T>>, k: nat)
      returns (e': nat, k': nat)
    requires 1 < n <= leaves.Length && e < n && k < proof.Length
    modifies leaves, proof
    ensures leaves[..(n + 1) / 2] == Parents(old(leaves[..n]))
    ensures e' == e / 2 && k' == k + |LevelArtifact(old(leaves[..n]), e)|
    ensures proof[..k'] == old(proof[..k]) + LevelArtifact(old(leaves[..n]), e)
  {
    ghost var level := leaves[..n];
    ghost var parents, artifact := Parents(level), LevelArtifact(level, e);
    e', k' := e, k;
    var odd := n % 2 != 0;
    var i, j := 0, 0;
    while i < n
      invariant i == 2 * j && j <= (n + 1) / 2 == |parents|
      invariant forall m :: 0 <= m < j ==> leaves[m] == parents[m]
      invariant forall m :: i <= m < n ==> leaves[m] == level[m]
      invariant i <= e ==> e' == e && k' == k && proof[..k] == old(proof[..k])
      invariant i > e ==> e' == e / 2 && k' == k + |artifact| && proof[..k'] == old(proof[..k]) + artifact
    {
      ParentAt(level, parents, j);
      if odd && i + 1 == n {
        if i == e' { e' := j; }
        leaves[j] := leaves[i];
      } else {
        if i == e' {
          proof[k'] := Artifact(leaves[i + 1], 1);
          k', e' := k' + 1, j;
        } else if i + 1 == e' {
          proof[k'] := Artifact(leaves[i], 0);
          k', e' := k' + 1, j;
        }
        leaves[j] := Node(leaves[i], leaves[i + 1]);
      }
      i, j := i + 2, j + 1;
    }
    assert leaves[..j] == parents;
  }

  lemma LevelOfProof<T>(emitted: seq<Artifact<T>>, s: seq<Digest<T>>, e: nat, path: seq<Artifact<T>>)
    requires e < |s| && |s| > 1 && emitted + Path(s, e) == path
    ensures (emitted + LevelArtifact(s, e)) + Path(Parents(s), e / 2) == path
    ensures |LevelArtifact(s, e)| + CeilLog2((|s| + 1) / 2) <= CeilLog2(|s|)
  {}

  /** `get_merkle_proof`: the proof of the first leaf that equals the element; the result is its length in bytes. */
  method GetMerkleProof<T(==)>(leaves: array<Digest<T>>, element: Digest<T>, proof: array<Artifact<T>>) returns (r: int)
    requires proof.Length >= CeilLog2(leaves.Length)
    modifies leaves, proof
    ensures element !in old(leaves[..]) ==> r == -1
    ensures element in old(leaves[..]) ==>
              var path := Path(old(leaves[..]), FirstIndex(old(leaves[..]), element));
              r == ARTIFACT_BYTES * |path| && |path| <= proof.Length && proof[..|path|] == path
  {
    var index := FindLeaf(leaves, element);
    if index == -1 { return -1; }
    ghost var path := Path(leaves[..], index);
    var e: nat, n: nat, k: nat := index, leaves.Length, 0;
    assert leaves[..n] == leaves[..];
    while n > 1
      invariant 1 <= n <= leaves.Length && e < n
      invariant k + CeilLog2(n) <= proof.Length
      invariant proof[..k] + Path(leaves[..n], e) == path
    {
      LevelOfProof(proof[..k], leaves[..n], e, path);
      e, k := ProofLevel(leaves, n, e, proof, k);
      n := (n + 1) / 2;
    }
    assert proof[..k] == path;
    return ARTIFACT_BYTES * k;
  }

  /** `verify_merkle_proof`: fold the element along the proof. */
  method VerifyMerkleProof<T(==)>(element: Digest<T>, root: Digest<T>, proof: seq<Artifact<T>>) returns (r: int)
    ensures r == Verify(element, root, proof)
  {
    if |proof| == 1 && root == element { return 0; }
    var hash := element;
    for i := 0 to |proof|
      invariant Fold(hash, proof[i..]) == Fold(element, proof)
    {
      if proof[i].position != 0 && proof[i].position != 1 { return -3; }
      hash := if proof[i].position == 0 then Node(proof[i].hash, hash) else Node(hash, proof[i].hash);
      assert proof[i..][1..] == proof[i + 1..];
    }
    return if hash == root then 0 else 1;
  }
}
