/**
 The Merkle tree of `src/cryptography/merkle.c`.

 Digests are symbolic: `Leaf` is SHA-512 behind the 0x00 prefix, `Node` behind the 0x01 prefix, and
 the two never collide. The in-place, level-by-level loops are proved against `Root` and `Path`,
 which climb the levels; these in turn equal the top-down tree and audit path of sections 2.1 and
 2.1.1 of RFC 6962.
 */
module Merkle {
  import opened Wrappers
  import opened Arithmetic

  datatype Digest<T> = Leaf(chunk: T) | Node(left: Digest<T>, right: Digest<T>)

  // ----- bottom up: the form of the loops

  /** One level: neighbours are hashed together, a lone last node is promoted unchanged. */
  function Parents<T>(s: seq<Digest<T>>): (r: seq<Digest<T>>)
    ensures |r| == (|s| + 1) / 2
  {
    if |s| <= 1 then s else [Node(s[0], s[1])] + Parents(s[2..])
  }

  function Root<T>(s: seq<Digest<T>>): Digest<T>
    requires |s| >= 1
    decreases |s|
  {
    if |s| == 1 then s[0] else Root(Parents(s))
  }

  datatype Artifact<T> = Artifact(hash: Digest<T>, position: nat)

  /** What the level contributes to the proof of index `i`; a promoted node contributes nothing. */
  function LevelArtifact<T>(s: seq<Digest<T>>, i: nat): seq<Artifact<T>>
    requires i < |s|
  {
    if i % 2 == 1 then [Artifact(s[i - 1], 0)]
    else if i + 1 < |s| then [Artifact(s[i + 1], 1)]
    else []
  }

  function Path<T>(s: seq<Digest<T>>, i: nat): seq<Artifact<T>>
    requires i < |s|
    decreases |s|
  {
    if |s| == 1 then [] else LevelArtifact(s, i) + Path(Parents(s), i / 2)
  }

  // ----- top down: RFC 6962

  predicate PowerOfTwo(k: nat) { k == 1 || (k >= 2 && k % 2 == 0 && PowerOfTwo(k / 2)) }

  /** The largest power of two smaller than `n`. */
  function Split(n: nat): (k: nat)
    requires n >= 2
    ensures 1 <= k < n <= 2 * k
    decreases n
  {
    if n == 2 then 1 else 2 * Split((n + 1) / 2)
  }

  /** The Merkle tree hash. */
  function Mth<T>(s: seq<Digest<T>>): Digest<T>
    requires |s| >= 1
    decreases |s|
  {
    if |s| == 1 then s[0] else Node(Mth(s[..Split(|s|)]), Mth(s[Split(|s|)..]))
  }

  /** The audit path of index `i`. */
  function AuditPath<T>(s: seq<Digest<T>>, i: nat): seq<Artifact<T>>
    requires i < |s|
    decreases |s|
  {
    if |s| == 1 then []
    else
      var k := Split(|s|);
      if i < k then AuditPath(s[..k], i) + [Artifact(Mth(s[k..]), 1)]
      else AuditPath(s[k..], i - k) + [Artifact(Mth(s[..k]), 0)]
  }

  /** `Split(n)` is the one power of two `k` with `k < n <= 2k`. */
  lemma {:induction false} SplitIsLargestPower(n: nat, k: nat)
    requires n >= 2
    ensures k == Split(n) <==> PowerOfTwo(k) && k < n <= 2 * k
    decreases n
  {
    if n > 2 {
      var half := Split((n + 1) / 2);
      SplitIsLargestPower((n + 1) / 2, half);
      assert (2 * half) / 2 == half;
      if k % 2 == 0 { SplitIsLargestPower((n + 1) / 2, k / 2); }
    }
  }

  // ----- the two agree

  lemma {:induction false} ParentsSplit<T>(s: seq<Digest<T>>, k: nat)
    requires k % 2 == 0 && k <= |s|
    ensures Parents(s)[..k / 2] == Parents(s[..k]) && Parents(s)[k / 2..] == Parents(s[k..])
  {
    if k == 0 {
      assert s[..k] == [] && s[k..] == s;
    } else {
      ParentsSplit(s[2..], k - 2);
      assert s[2..][..k - 2] == s[..k][2..] && s[2..][k - 2..] == s[k..];
      ParentsFirst(s, Parents(s[2..]));
      ParentsFirst(s[..k], Parents(s[..k][2..]));
      SplitAfterFirst(Node(s[0], s[1]), Parents(s[2..]), (k - 2) / 2);
    }
  }

  lemma ParentsFirst<T>(s: seq<Digest<T>>, rest: seq<Digest<T>>)
    requires |s| >= 2 && rest == Parents(s[2..])
    ensures Parents(s) == [Node(s[0], s[1])] + rest
  {}

  lemma SplitAfterFirst<T>(x: T, rest: seq<T>, n: nat)
    requires n <= |rest|
    ensures ([x] + rest)[..n + 1] == [x] + rest[..n] && ([x] + rest)[n + 1..] == rest[n..]
  {}

  /** Hashing one level up leaves the tree hash as it is. */
  lemma {:induction false} LevelKeepsHash<T>(s: seq<Digest<T>>)
    requires |s| >= 1
    ensures Mth(Parents(s)) == Mth(s)
    decreases |s|
  {
    if |s| == 2 {
      assert Parents(s) == [Node(s[0], s[1])];
    } else if |s| > 2 {
      var k := Split(|s|);
      assert k / 2 == Split(|Parents(s)|);
      ParentsSplit(s, k);
      LevelKeepsHash(s[..k]);
      LevelKeepsHash(s[k..]);
    }
  }

  /** The level loop computes the tree of section 2.1 of RFC 6962. */
  lemma {:induction false} RootIsTreeHash<T>(s: seq<Digest<T>>)
    requires |s| >= 1
    ensures Root(s) == Mth(s)
    decreases |s|
  {
    if |s| > 1 {
      RootIsTreeHash(Parents(s));
      LevelKeepsHash(s);
    }
  }

  /** One level up shortens the path by that level's artifact. */
  ghost predicate LevelStep<T>(s: seq<Digest<T>>, i: nat)
    requires i < |s|
  {
    AuditPath(s, i) == LevelArtifact(s, i) + AuditPath(Parents(s), i / 2)
  }

  /** The halves of the tree one level up are the parents of the halves. */
  lemma ParentHalves<T>(s: seq<Digest<T>>)
    requires |s| > 2
    ensures var k, p := Split(|s|), Parents(s);
            && |p| >= 2 && Split(|p|) == k / 2 && k % 2 == 0
            && p[..k / 2] == Parents(s[..k]) && p[k / 2..] == Parents(s[k..])
            && Mth(p[..k / 2]) == Mth(s[..k]) && Mth(p[k / 2..]) == Mth(s[k..])
  {
    var k := Split(|s|);
    ParentsSplit(s, k);
    LevelKeepsHash(s[..k]);
    LevelKeepsHash(s[k..]);
  }

  lemma ArtifactOfHalf<T>(s: seq<Digest<T>>, k: nat, i: nat)
    requires k % 2 == 0 && k <= |s| && i < |s|
    ensures i < k ==> LevelArtifact(s[..k], i) == LevelArtifact(s, i)
    ensures i >= k ==> LevelArtifact(s[k..], i - k) == LevelArtifact(s, i)
  {}

  lemma Glue<T>(whole: seq<T>, part: seq<T>, artifact: seq<T>, rest: seq<T>, last: T)
    requires whole == part + [last] && part == artifact + rest
    ensures whole == artifact + (rest + [last])
  {}

  lemma LevelStepLeft<T>(s: seq<Digest<T>>, i: nat)
    requires |s| > 2 && i < Split(|s|) && LevelStep(s[..Split(|s|)], i)
    ensures LevelStep(s, i)
  {
    var k := Split(|s|);
    ParentHalves(s);
    ArtifactOfHalf(s, k, i);
    Glue(AuditPath(s, i), AuditPath(s[..k], i), LevelArtifact(s, i), AuditPath(Parents(s[..k]), i / 2),
        Artifact(Mth(s[k..]), 1));
  }

  lemma LevelStepRight<T>(s: seq<Digest<T>>, i: nat)
    requires |s| > 2 && Split(|s|) <= i < |s| && LevelStep(s[Split(|s|)..], i - Split(|s|))
    ensures LevelStep(s, i)
  {
    var k := Split(|s|);
    ParentHalves(s);
    ArtifactOfHalf(s, k, i);
    assert (i - k) / 2 == i / 2 - k / 2;
    Glue(AuditPath(s, i), AuditPath(s[k..], i - k), LevelArtifact(s, i), AuditPath(Parents(s[k..]), (i - k) / 2),
        Artifact(Mth(s[..k]), 0));
  }

  lemma {:induction false} LevelKeepsPath<T>(s: seq<Digest<T>>, i: nat)
    requires i < |s|
    ensures LevelStep(s, i)
    decreases |s|
  {
    if |s| == 2 {
      assert Parents(s) == [Node(s[0], s[1])];
      assert s[..1] == [s[0]] && s[1..] == [s[1]];
    } else if |s| > 2 {
      var k := Split(|s|);
      if i < k {
        LevelKeepsPath(s[..k], i);
        LevelStepLeft(s, i);
      } else {
        LevelKeepsPath(s[k..], i - k);
        LevelStepRight(s, i);
      }
    }
  }

  /** The proof loop emits the audit path of section 2.1.1 of RFC 6962. */
  lemma {:induction false} PathIsAuditPath<T>(s: seq<Digest<T>>, i: nat)
    requires i < |s|
    ensures Path(s, i) == AuditPath(s, i)
    decreases |s|
  {
    if |s| > 1 {
      PathIsAuditPath(Parents(s), i / 2);
      LevelKeepsPath(s, i);
    }
  }

  // ----- roots determine their leaves

  function Flatten<T>(d: Digest<T>): seq<T> {
    match d case Leaf(c) => [c] case Node(l, r) => Flatten(l) + Flatten(r)
  }

  function Leaves<T>(chunks: seq<T>): (s: seq<Digest<T>>)
    ensures |s| == |chunks|
  {
    seq(|chunks|, i requires 0 <= i < |chunks| => Leaf(chunks[i]))
  }

  lemma LeavesOfHalves<T>(chunks: seq<T>, k: nat)
    requires k <= |chunks|
    ensures Leaves(chunks)[..k] == Leaves(chunks[..k]) && Leaves(chunks)[k..] == Leaves(chunks[k..])
  {}

  lemma TreeOfHalves<T>(chunks: seq<T>, k: nat)
    requires |chunks| > 1 && k == Split(|chunks|)
    ensures Mth(Leaves(chunks)) == Node(Mth(Leaves(chunks[..k])), Mth(Leaves(chunks[k..])))
  {
    LeavesOfHalves(chunks, k);
  }

  lemma {:induction false} FlattenTree<T>(chunks: seq<T>)
    requires |chunks| >= 1
    ensures Flatten(Mth(Leaves(chunks))) == chunks
    decreases |chunks|
  {
    if |chunks| > 1 {
      var k := Split(|chunks|);
      var left, right := chunks[..k], chunks[k..];
      FlattenTree(left);
      FlattenTree(right);
      TreeOfHalves(chunks, k);
      assert chunks == left + right;
    }
  }

  /** Flattening a root gives back the chunks, so different chunk sequences never share a root. */
  lemma RootsDistinct<T>(a: seq<T>, b: seq<T>)
    requires |a| >= 1 && |b| >= 1
    ensures Flatten(Root(Leaves(a))) == a
    ensures Root(Leaves(a)) == Root(Leaves(b)) ==> a == b
  {
    RootIsTreeHash(Leaves(a));
    RootIsTreeHash(Leaves(b));
    FlattenTree(a);
    FlattenTree(b);
  }

  // ----- verification

  /** Hash the element up along the proof; a position byte other than 0 and 1 is refused. */
  function Fold<T>(element: Digest<T>, proof: seq<Artifact<T>>): Option<Digest<T>>
    decreases |proof|
  {
    if proof == [] then Some(element)
    else if proof[0].position > 1 then None
    else Fold(if proof[0].position == 0 then Node(proof[0].hash, element) else Node(element, proof[0].hash), proof[1..])
  }

  /** `verify_merkle_proof`: 0 accepts. */
  function Verify<T(==)>(element: Digest<T>, root: Digest<T>, proof: seq<Artifact<T>>): int {
    if |proof| == 1 && root == element then 0
    else match Fold(element, proof)
      case None => -3
      case Some(d) => if d == root then 0 else 1
  }

  lemma {:induction false} FoldFails<T>(element: Digest<T>, proof: seq<Artifact<T>>)
    ensures Fold(element, proof).None? <==> exists i :: 0 <= i < |proof| && proof[i].position > 1
    decreases |proof|
  {
    if proof != [] && proof[0].position <= 1 {
      var next := if proof[0].position == 0 then Node(proof[0].hash, element) else Node(element, proof[0].hash);
      FoldFails(next, proof[1..]);
      assert forall i :: 0 < i < |proof| ==> proof[i] == proof[1..][i - 1];
    }
  }

  /** The result codes: -3 for a position other than 0 and 1, and 1 for a proof that leads to another root. */
  lemma VerifyCodes<T>(element: Digest<T>, root: Digest<T>, proof: seq<Artifact<T>>)
    ensures var r, bad := Verify(element, root, proof), exists i :: 0 <= i < |proof| && proof[i].position > 1;
            && (r == 0 || r == 1 || r == -3)
            && (!(|proof| == 1 && root == element) ==> (r == -3 <==> bad))
            && (|proof| == 1 && root == element ==> r == 0)
            && (!bad && |proof| != 1 ==> (r == 0 <==> Fold(element, proof) == Some(root)))
  {
    FoldFails(element, proof);
  }

  lemma {:induction false} FoldAppend<T>(element: Digest<T>, proof: seq<Artifact<T>>, last: Artifact<T>)
    ensures Fold(element, proof + [last]) ==
            match Fold(element, proof)
            case None => None
            case Some(d) => if last.position > 1 then None
                            else Some(if last.position == 0 then Node(last.hash, d) else Node(d, last.hash))
    decreases |proof|
  {
    if proof == [] {
      assert proof + [last] == [last];
    } else {
      assert (proof + [last])[1..] == proof[1..] + [last];
      if proof[0].position <= 1 {
        FoldAppend(if proof[0].position == 0 then Node(proof[0].hash, element)
            else Node(element, proof[0].hash), proof[1..], last);
      }
    }
  }

  lemma {:induction false} AuditPathFolds<T>(s: seq<Digest<T>>, i: nat)
    requires i < |s|
    ensures Fold(s[i], AuditPath(s, i)) == Some(Mth(s))
    decreases |s|
  {
    if |s| > 1 {
      var k := Split(|s|);
      if i < k {
        AuditPathFolds(s[..k], i);
        FoldAppend(s[i], AuditPath(s[..k], i), Artifact(Mth(s[k..]), 1));
      } else {
        AuditPathFolds(s[k..], i - k);
        FoldAppend(s[i], AuditPath(s[k..], i - k), Artifact(Mth(s[..k]), 0));
      }
    }
  }

  /** Whatever folds a leaf into the tree is the audit path of an occurrence of that leaf. */
  lemma {:induction false} FoldedIsAuditPath<T>(s: seq<Digest<T>>, element: Digest<T>, proof: seq<Artifact<T>>)
      returns (i: nat)
    requires |s| >= 1 && element.Leaf? && (forall j :: 0 <= j < |s| ==> s[j].Leaf?)
    requires Fold(element, proof) == Some(Mth(s))
    ensures i < |s| && s[i] == element && proof == AuditPath(s, i)
    decreases |s|
  {
    if proof == [] { return 0; }
    var init, last := proof[..|proof| - 1], proof[|proof| - 1];
    assert proof == init + [last];
    FoldAppend(element, init, last);
    assert |s| > 1;
    var k := Split(|s|);
    if last.position == 1 {
      i := FoldedIsAuditPath(s[..k], element, init);
    } else {
      var j := FoldedIsAuditPath(s[k..], element, init);
      i := j + k;
    }
  }

  /** Every proof the generator makes, for every leaf of every tree, is accepted. */
  lemma ProofsComplete<T>(s: seq<Digest<T>>, i: nat)
    requires i < |s|
    ensures Verify(s[i], Root(s), Path(s, i)) == 0
  {
    RootIsTreeHash(s);
    PathIsAuditPath(s, i);
    AuditPathFolds(s, i);
  }

  /**
   Exactly these proofs are accepted for a leaf: the generated path of one of its occurrences, or
   any single artifact when the tree is that one leaf.
   */
  lemma ProofsSound<T>(chunks: seq<T>, c: T, proof: seq<Artifact<T>>)
    requires |chunks| >= 1
    ensures Verify(Leaf(c), Root(Leaves(chunks)), proof) == 0 <==>
            || (chunks == [c] && |proof| == 1)
            || exists i :: 0 <= i < |chunks| && chunks[i] == c && proof == Path(Leaves(chunks), i)
  {
    var s := Leaves(chunks);
    RootIsTreeHash(s);
    if i :| 0 <= i < |chunks| && chunks[i] == c && proof == Path(s, i) {
      ProofsComplete(s, i);
    }
    if |proof| == 1 && Root(s) == Leaf(c) {
      FlattenTree(chunks);
    } else if Fold(Leaf(c), proof) == Some(Root(s)) {
      var i := FoldedIsAuditPath(s, Leaf(c), proof);
      PathIsAuditPath(s, i);
    }
  }

  // ----- proof length

  /** The least `h` with `n <= 2^h`. */
  function CeilLog2(n: nat): (h: nat)
    ensures n <= Pow2(h) && (n >= 2 ==> Pow2(h - 1) < n)
    decreases n
  {
    if n <= 1 then 0 else 1 + CeilLog2((n + 1) / 2)
  }

  lemma {:induction false} PathLength<T>(s: seq<Digest<T>>, i: nat)
    requires i < |s|
    ensures |Path(s, i)| <= CeilLog2(|s|)
    decreases |s|
  {
    if |s| > 1 { PathLength(Parents(s), i / 2); }
  }
}
