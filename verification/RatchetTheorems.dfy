/** The theorems about every run of `RatchetRun`, from the joint invariant of `RatchetSafety`. */
module RatchetTheorems {
  import opened Wrappers
  import opened Ratchet
  import opened ChunkCrypto
  import opened RatchetRun
  import opened RatchetSafety

  /** A session that has just finished its handshake, with distinct initial DH keys. */
  ghost predicate Handshaken(w: World) {
    exists id: nat, suite, a0: KeyId, b0: KeyId, b1: KeyId ::
      a0 != b0 && a0 != b1 && b0 != b1 && w == Start(Seed(id), suite, a0, b0, b1)
  }

  /** Every world that some run of the two peers reaches from a completed handshake. */
  ghost predicate Reachable(w: World) {
    exists w0: World, es: seq<Event> :: Handshaken(w0) && w0.Ready() && ValidRun(w0, es) && w == Run(w0, es)
  }

  lemma ReachableInv(w: World) returns (h: History)
    requires Reachable(w)
    ensures Inv(w, h)
  {
    var w0: World, es: seq<Event> :| Handshaken(w0) && w0.Ready() && ValidRun(w0, es) && w == Run(w0, es);
    var id: nat, suite, a0: KeyId, b0: KeyId, b1: KeyId :|
      a0 != b0 && a0 != b1 && b0 != b1 && w0 == Start(Seed(id), suite, a0, b0, b1);
    h := StartInv(id, suite, a0, b0, b1);
    h := RunKeepsInv(w0, h, es);
  }

  /** Stored, ahead on the receiver's current chain, or on the chain of the peer's newest DH key, within the limits. */
  ghost predicate InReach(w: World, p: Party, h: Header) {
    var st := w.At(p).live;
    || IdOf(h) in st.skipped.keys
    || (st.dhRemotePub == Some(h.dhPub) && st.Nr <= h.N <= st.Nr + MAX_SKIP)
    || (st.dhRemotePub != Some(h.dhPub) && h.dhPub == w.At(Other(p)).live.dhSelf &&
        h.PN <= st.Nr + MAX_SKIP && h.N <= MAX_SKIP)
  }

  lemma ReachIsObtainable(w: World, h: History, p: Party, j: nat, n: nat)
    requires StateOk(h, p, w.At(p).live) && StateOk(h, Other(p), w.At(Other(p)).live)
    requires 1 <= j < |h.xs| && !Owns(p, j)
    ensures InReach(w, p, MessageAt(h, j, n).header) <==> Obtainable(h, p, w.At(p).live, j, n)
  {}

  /**
   Agreement. In every reachable world, for every message the peer ever sent, in whatever order it
   arrives, `Decrypt` returns exactly the sender's key if and only if the message is in reach.
   */
  lemma Agreement(w: World, p: Party, m: Message, newKey: KeyId)
    requires Reachable(w) && m in w.At(Other(p)).sent
    ensures w.Ready()
    ensures Decrypt(w.At(p).live, m.header, newKey).key == Ok(m.key) <==> InReach(w, p, m.header)
  {
    var h := ReachableInv(w);
    var j, n := SentPosition(w, h, Other(p), m);
    DecryptExact(h, p, w.At(p), j, n, newKey);
    ReachIsObtainable(w, h, p, j, n);
  }

  ghost predicate WithinLimits(st: State, h: Header) {
    if st.dhRemotePub == Some(h.dhPub) then h.N <= st.Nr + MAX_SKIP
    else h.PN <= st.Nr + MAX_SKIP && h.N <= MAX_SKIP
  }

  lemma NotLost(h: History, p: Party, me: Peer, j: nat, n: nat)
    requires StateOk(h, p, me.live) && NothingLost(h, p, me.live.Nr, me.live.skipped.keys, me.accepted)
    requires 1 <= j < |h.xs| && !Owns(p, j) && n < h.lens[j] && MessageId(h.xs[j], n) !in me.accepted
    requires WithinLimits(me.live, MessageAt(h, j, n).header)
    ensures Obtainable(h, p, me.live, j, n)
  {
    assert ChainOf(h, h.xs[j]) == j;
    assert Derived(h, p, me.live.Nr, MessageId(h.xs[j], n)) <==>
           j < Position(h, p) && n < if j == Position(h, p) - 1 then me.live.Nr else h.lens[j];
  }

  /**
   As long as the store has not evicted a key, every message of the peer that was not accepted
   before is decrypted to the sender's key, however late it arrives, within the skip limits.
   */
  lemma LateDelivery(w: World, p: Party, m: Message, newKey: KeyId)
    requires Reachable(w) && m in w.At(Other(p)).sent
    requires !w.At(p).evicted && IdOf(m.header) !in w.At(p).accepted
    requires WithinLimits(w.At(p).live, m.header)
    ensures w.Ready() && Decrypt(w.At(p).live, m.header, newKey).key == Ok(m.key)
  {
    var h := ReachableInv(w);
    var j, n := SentPosition(w, h, Other(p), m);
    NotLost(h, p, w.At(p), j, n);
    DecryptExact(h, p, w.At(p), j, n, newKey);
  }

  /** Sealing and receiving undo each other: the first chunk of a message in reach is opened and steps the ratchet. */
  lemma FirstChunkOpens(w: World, e: Event, m: Message, ctx: Option<PqContext>, proofOk: bool, chunk: nat)
    requires Reachable(w) && e.Deliver? && m in w.At(Other(e.p)).sent && InReach(w, e.p, m.header)
    requires e.frame == SealChunk(m.key, m.header, ctx, e.merkleRoot, proofOk, chunk)
    requires ResolveContext(e.frame, e.resolver, w.At(e.p).live.rootSuite) == Some(ctx)
    requires CacheKeyOf(e.frame, e.resolver) !in w.At(e.p).cache
    ensures w.Ready() && Received(w, e).outcome == Outcome(if proofOk then Some(chunk) else None, proofOk, true)
  {
    Agreement(w, e.p, m, e.newKey);
  }

  /** Only the first authentic chunk of a message of the peer ever steps the ratchet. */
  lemma AdvancesOncePerMessage(w: World, e: Event)
    requires Reachable(w) && e.Deliver? && Enabled(w, e)
    requires w.Ready() && Received(w, e).outcome.stateAdvanced
    ensures FirstOfPeer(w, e)
  {
    var h := ReachableInv(w);
    var g := DeliverKeepsInv(w, h, e);
  }

  ghost predicate SentWithKey(sent: seq<Message>, id: MessageId, key: MessageKey) {
    exists m :: m in sent && IdOf(m.header) == id && m.key == key
  }

  lemma StoredWasSent(w: World, h: History, p: Party, id: MessageId)
    requires Inv(w, h) && id in w.At(p).live.skipped.keys
    ensures id !in w.At(p).accepted && SentWithKey(w.At(Other(p)).sent, id, w.At(p).live.skipped.keys[id])
  {
    var me, j := w.At(p), ChainOf(h, id.dhPub);
    assert ReceivedOk(h, p, me) && StateOk(h, p, me.live) && SentOk(h, Other(p), w.At(Other(p)).sent);
    assert MessageAt(h, j, id.n) in w.At(Other(p)).sent;
  }

  /**
   The skipped-key store of every reachable world: each entry is the key that the peer used for that
   message, the message is not yet consumed, and there are at most `MAX_SKIP_SESSION` entries.
   */
  lemma StoreSound(w: World, p: Party)
    requires Reachable(w)
    ensures var st, peer := w.At(p).live, w.At(Other(p));
            && |st.skipped.order| <= MAX_SKIP_SESSION && st.skipped.Valid()
            && forall id :: id in st.skipped.keys ==>
                 id !in w.At(p).accepted && SentWithKey(peer.sent, id, st.skipped.keys[id])
  {
    var h := ReachableInv(w);
    var st := w.At(p).live;
    forall id | id in st.skipped.keys
      ensures id !in w.At(p).accepted && SentWithKey(w.At(Other(p)).sent, id, st.skipped.keys[id])
    {
      StoredWasSent(w, h, p, id);
    }
  }

  // ----- hostile frames are inert

  /** The run without the deliveries that did not step a ratchet, and without cache evictions. */
  ghost function Essential(w: World, es: seq<Event>): seq<Event>
    requires w.Ready()
    decreases |es|
  {
    if es == [] then []
    else
      var rest := Essential(Step(w, es[0]), es[1..]);
      if Steps(w, es[0]) then [es[0]] + rest else rest
  }

  /** The event steps a ratchet: a send, or the delivery of a first authentic chunk. */
  ghost predicate Steps(w: World, e: Event)
    requires w.Ready()
  {
    e.Send? || (e.Deliver? && Received(w, e).outcome.stateAdvanced)
  }

  /** Equal up to the cache, which holds keys of accepted messages only. */
  ghost predicate SamePeer(v: Peer, w: Peer) {
    v == w.(cache := v.cache) && forall ck :: ck in v.cache ==> ck.id in v.accepted
  }

  ghost predicate SameRatchets(v: World, w: World) {
    v.used <= w.used && SamePeer(v.initiator, w.initiator) && SamePeer(v.responder, w.responder)
  }

  lemma DeliverSame(v: World, w: World, e: Event)
    requires SameRatchets(v, w) && e.Deliver? && Enabled(w, e)
    requires v.Ready() && w.Ready() && Received(w, e).outcome.stateAdvanced && FirstOfPeer(w, e)
    ensures Enabled(v, e) && SameRatchets(Step(v, e), Step(w, e))
  {
    Advanced(w, e);
    assert CacheKeyOf(e.frame, e.resolver) !in v.At(e.p).cache;
    assert Received(v, e).outcome.stateAdvanced;
    Advanced(v, e);
    var q, m :| m in w.At(q).sent && e.frame.ct.key.mk == m.key && e.frame.ct.aad.header == m.header;
    assert m in v.At(q).sent;
  }

  lemma StepSame(v: World, w: World, e: Event)
    requires SameRatchets(v, w) && Enabled(w, e) && v.Ready() && w.Ready()
    requires e.Deliver? && Steps(w, e) ==> FirstOfPeer(w, e)
    ensures Steps(w, e) ==> Enabled(v, e) && SameRatchets(Step(v, e), Step(w, e))
    ensures !Steps(w, e) ==> SameRatchets(v, Step(w, e))
  {
    if e.Deliver? {
      if Steps(w, e) { DeliverSame(v, w, e); } else { NotAdvanced(w, e); }
    }
  }

  /**
   After any mix of junk, forgeries, replays, reflections, later chunks and cache evictions with
   authentic frames, both live ratchets are those of the run that delivered only the first
   authentic chunk of each accepted message.
   */
  lemma {:induction false} HostileFramesInert(v: World, w: World, h: History, es: seq<Event>)
    requires SameRatchets(v, w) && Inv(w, h)
    requires v.Ready() && w.Ready() && ValidRun(w, es)
    ensures ValidRun(v, Essential(w, es))
    ensures SameRatchets(Run(v, Essential(w, es)), Run(w, es))
    decreases |es|
  {
    if es != [] {
      var e, rest := es[0], Essential(Step(w, es[0]), es[1..]);
      var g := StepKeepsInv(w, h, e);
      if e.Deliver? { g := DeliverKeepsInv(w, h, e); }
      StepSame(v, w, e);
      if Steps(w, e) {
        HostileFramesInert(Step(v, e), Step(w, e), g, es[1..]);
        assert ([e] + rest)[1..] == rest;
      } else {
        HostileFramesInert(v, Step(w, e), g, es[1..]);
      }
    }
  }

  /** The same, from a completed handshake. */
  lemma HostileRunInert(w0: World, es: seq<Event>, p: Party)
    requires Handshaken(w0)
    requires w0.Ready() && ValidRun(w0, es)
    ensures ValidRun(w0, Essential(w0, es))
    ensures Run(w0, es).At(p).live == Run(w0, Essential(w0, es)).At(p).live
  {
    var id: nat, suite, a0: KeyId, b0: KeyId, b1: KeyId :|
      a0 != b0 && a0 != b1 && b0 != b1 && w0 == Start(Seed(id), suite, a0, b0, b1);
    var h := StartInv(id, suite, a0, b0, b1);
    HostileFramesInert(w0, w0, h, es);
  }
}
