/**
 What runs of `RatchetRun` deliver: every chunk of a message opens once its first one has, and whatever is
 delivered is what the peer sealed, in an authorised context.
 */
module RatchetMessages {
  import opened Wrappers
  import opened Ratchet
  import opened ChunkCrypto
  import opened RatchetRun
  import opened RatchetSafety
  import opened RatchetTheorems

  // ----- all chunks of a message

  ghost predicate Keeps(es: seq<Event>, p: Party, ck: CacheKey) {
    forall k :: 0 <= k < |es| ==> es[k] != EvictCache(p, ck)
  }

  /** A cached key stays as it is until it is evicted. */
  lemma {:induction false} CachedStays(w: World, es: seq<Event>, p: Party, ck: CacheKey)
    requires w.Ready() && ck in w.At(p).cache && Keeps(es, p, ck)
    ensures ck in Run(w, es).At(p).cache && Run(w, es).At(p).cache[ck] == w.At(p).cache[ck]
    decreases |es|
  {
    if es != [] {
      assert Keeps(es[1..], p, ck);
      CachedStays(Step(w, es[0]), es[1..], p, ck);
    }
  }

  /** The delivery that steps the ratchet for `m` caches the key under which `m` was sealed. */
  lemma FirstChunkCaches(w: World, e: Event, m: Message, ctx: Option<PqContext>)
    requires Reachable(w) && e.Deliver? && Enabled(w, e) && w.Ready() && Received(w, e).outcome.stateAdvanced
    requires m in w.At(Other(e.p)).sent && m.header == e.frame.header
    requires ResolveContext(e.frame, e.resolver, w.At(e.p).live.rootSuite) == Some(ctx)
    ensures var ck, cache := CacheKeyOf(e.frame, e.resolver), Step(w, e).At(e.p).cache;
            ck in cache && cache[ck] == Combine(m.key, ctx, m.header)
  {
    AdvancesOncePerMessage(w, e);
    Advanced(w, e);
    var first :| first in w.At(Other(e.p)).sent && first.header == e.frame.header && e.frame.ct.key.mk == first.key;
    Agreement(w, e.p, first, e.newKey);
    Agreement(w, e.p, m, e.newKey);
  }

  /**
   Later chunks. Once a delivery `e` has stepped the ratchet for `m`, every further chunk that the peer
   sealed for `m` in the same context opens, whatever happened in between, as long as the key was not
   evicted; its content is returned exactly if its proof holds, and the ratchet does not step again.
   */
  lemma LaterChunkOpens(w: World, e: Event, es: seq<Event>, f: Event, m: Message, ctx: Option<PqContext>,
      proofOk: bool, chunk: nat)
    requires Reachable(w) && e.Deliver? && Enabled(w, e) && w.Ready() && Received(w, e).outcome.stateAdvanced
    requires m in w.At(Other(e.p)).sent && m.header == e.frame.header
    requires ResolveContext(e.frame, e.resolver, w.At(e.p).live.rootSuite) == Some(ctx)
    requires Keeps(es, e.p, CacheKeyOf(e.frame, e.resolver))
    requires f.Deliver? && f.p == e.p && f.frame == SealChunk(m.key, m.header, ctx, f.merkleRoot, proofOk, chunk)
    requires var live := Run(Step(w, e), es).At(e.p).live;
             ResolveContext(f.frame, f.resolver, live.rootSuite) == Some(ctx)
    ensures Received(Run(Step(w, e), es), f).outcome == Outcome(if proofOk then Some(chunk) else None, proofOk, false)
  {
    FirstChunkCaches(w, e, m, ctx);
    CachedStays(Step(w, e), es, e.p, CacheKeyOf(e.frame, e.resolver));
    assert CacheKeyOf(f.frame, f.resolver) == CacheKeyOf(e.frame, e.resolver);
  }

  /** The event delivers a chunk to `p` that was sealed for `m`, in a context that `p` resolves to the same. */
  ghost predicate ChunkOf(w: World, d: Event, p: Party, m: Message, ctx: Option<PqContext>) {
    && d.Deliver? && d.p == p && d.frame.ct.Sealed?
    && d.frame == SealChunk(m.key, m.header, ctx, d.merkleRoot, d.frame.ct.proofOk, d.frame.ct.chunk)
    && ResolveContext(d.frame, d.resolver, w.At(p).live.rootSuite) == Some(ctx)
  }

  /**
   A whole message. Delivered in any order and any number of times, the chunks of a message in reach all
   open with their own content and proof, and only the first delivery steps the ratchet.
   */
  lemma WholeMessageOpens(w: World, ds: seq<Event>, p: Party, m: Message, ctx: Option<PqContext>, k: nat)
    requires Reachable(w) && w.Ready() && ValidRun(w, ds) && k < |ds|
    requires m in w.At(Other(p)).sent && InReach(w, p, m.header)
    requires forall i: nat :: i < |ds| ==> ChunkOf(Run(w, ds[..i]), ds[i], p, m, ctx)
    requires ds[0].Deliver? && CacheKeyOf(ds[0].frame, ds[0].resolver) !in w.At(p).cache
    ensures ds[k].Deliver? && ds[k].frame.ct.Sealed?
    ensures var ct := ds[k].frame.ct;
            Received(Run(w, ds[..k]), ds[k]).outcome ==
            Outcome(if ct.proofOk then Some(ct.chunk) else None, ct.proofOk, k == 0)
  {
    assert ChunkOf(Run(w, ds[..k]), ds[k], p, m, ctx) && ChunkOf(Run(w, ds[..0]), ds[0], p, m, ctx);
    var first, ct := ds[0], ds[k].frame.ct;
    FirstChunkOpens(w, first, m, ctx, first.frame.ct.proofOk, first.frame.ct.chunk);
    if k > 0 {
      assert ds[..k][1..] == ds[1..k];
      LaterChunkOpens(w, first, ds[1..k], ds[k], m, ctx, ct.proofOk, ct.chunk);
    }
  }

  // ----- nothing else


  /** Every cached key of `p` belongs to a message of the peer. */
  ghost predicate CacheOk(w: World, p: Party) {
    forall ck :: ck in w.At(p).cache ==> SentWithKey(w.At(Other(p)).sent, ck.id, w.At(p).cache[ck].mk)
  }

  lemma SentKeyStays(sent: seq<Message>, more: seq<Message>, id: MessageId, mk: MessageKey)
    requires SentWithKey(sent, id, mk) && forall m :: m in sent ==> m in more
    ensures SentWithKey(more, id, mk)
  {
    var m :| m in sent && IdOf(m.header) == id && m.key == mk;
    assert m in more;
  }

  /** A cache that keeps its entries, or gets one for a message of the peer, while the peer only sends more. */
  lemma CacheGrows(w: World, t: World, p: Party, ck: CacheKey, key: AeadKey)
    requires CacheOk(w, p) && (forall m :: m in w.At(Other(p)).sent ==> m in t.At(Other(p)).sent)
    requires t.At(p).cache == w.At(p).cache[ck := key] && SentWithKey(w.At(Other(p)).sent, ck.id, key.mk)
    ensures CacheOk(t, p)
  {
    forall c | c in t.At(p).cache ensures SentWithKey(t.At(Other(p)).sent, c.id, t.At(p).cache[c].mk) {
      SentKeyStays(w.At(Other(p)).sent, t.At(Other(p)).sent, c.id, t.At(p).cache[c].mk);
    }
  }

  lemma CacheShrinks(w: World, t: World, p: Party)
    requires CacheOk(w, p) && (forall m :: m in w.At(Other(p)).sent ==> m in t.At(Other(p)).sent)
    requires forall c :: c in t.At(p).cache ==> c in w.At(p).cache && t.At(p).cache[c] == w.At(p).cache[c]
    ensures CacheOk(t, p)
  {
    forall c | c in t.At(p).cache ensures SentWithKey(t.At(Other(p)).sent, c.id, t.At(p).cache[c].mk) {
      SentKeyStays(w.At(Other(p)).sent, t.At(Other(p)).sent, c.id, t.At(p).cache[c].mk);
    }
  }

  lemma AdvanceKeepsCache(w: World, e: Event, p: Party)
    requires w.Ready() && e.Deliver? && Received(w, e).outcome.stateAdvanced && FirstOfPeer(w, e) && CacheOk(w, p)
    ensures CacheOk(Step(w, e), p)
  {
    Advanced(w, e);
    if e.p == p {
      var m :| m in w.At(Other(p)).sent && m.header == e.frame.header && e.frame.ct.key.mk == m.key;
      CacheGrows(w, Step(w, e), p, CacheKeyOf(e.frame, e.resolver), e.frame.ct.key);
    } else {
      CacheShrinks(w, Step(w, e), p);
    }
  }

  lemma OtherKeepsCache(w: World, e: Event, p: Party)
    requires w.Ready() && CacheOk(w, p) && (e.Deliver? ==> !Received(w, e).outcome.stateAdvanced)
    ensures CacheOk(Step(w, e), p)
  {
    if e.Deliver? { NotAdvanced(w, e); } else { CacheShrinks(w, Step(w, e), p); }
  }

  lemma StepKeepsCache(w: World, h: History, e: Event, p: Party)
    requires w.Ready() && Inv(w, h) && Enabled(w, e) && CacheOk(w, p)
    ensures CacheOk(Step(w, e), p)
  {
    if e.Deliver? && Received(w, e).outcome.stateAdvanced {
      var g := DeliverKeepsInv(w, h, e);
      AdvanceKeepsCache(w, e, p);
    } else {
      OtherKeepsCache(w, e, p);
    }
  }

  lemma {:induction false} RunKeepsCache(w: World, h: History, es: seq<Event>, p: Party)
    requires Inv(w, h) && CacheOk(w, p)
    requires w.Ready() && ValidRun(w, es)
    ensures CacheOk(Run(w, es), p)
    decreases |es|
  {
    if es != [] {
      var g := StepKeepsInv(w, h, es[0]);
      StepKeepsCache(w, h, es[0], p);
      RunKeepsCache(Step(w, es[0]), g, es[1..], p);
    }
  }

  lemma ReachableCache(w: World, p: Party)
    requires Reachable(w)
    ensures CacheOk(w, p)
  {
    var w0: World, es: seq<Event> :| Handshaken(w0) && w0.Ready() && ValidRun(w0, es) && w == Run(w0, es);
    var id: nat, suite, a0: KeyId, b0: KeyId, b1: KeyId :|
      a0 != b0 && a0 != b1 && b0 != b1 && w0 == Start(Seed(id), suite, a0, b0, b1);
    var h := StartInv(id, suite, a0, b0, b1);
    RunKeepsCache(w0, h, es, p);
  }

  /**
   Whatever a delivery returns is genuine: the peer used the key for the message with this header's id, the
   frame was sealed for this Merkle root, header and epoch, its proof holds, and the content is the sealed one.
   */
  lemma ContentIsGenuine(w: World, e: Event)
    requires Reachable(w) && e.Deliver? && Enabled(w, e)
    requires w.Ready() && (Received(w, e).outcome.decrypted.Some? || Received(w, e).outcome.ok)
    ensures var ct := e.frame.ct;
            && ct.Sealed? && ct.proofOk && Received(w, e).outcome.decrypted == Some(ct.chunk)
            && ct.aad == Aad(e.merkleRoot, e.frame.header, e.frame.epoch)
            && SentWithKey(w.At(Other(e.p)).sent, IdOf(e.frame.header), ct.key.mk)
  {
    ReachableCache(w, e.p);
    if Received(w, e).outcome.stateAdvanced { AdvancesOncePerMessage(w, e); }
  }

  /**
   Nothing opens, and no ratchet steps, outside an authorised context: without a resolver only epoch 0 is
   read, and with one only an epoch that it knows, for the root suite of the session.
   */
  lemma OnlyAuthorised(w: World, e: Event)
    requires w.Ready() && e.Deliver?
    requires Received(w, e).outcome != DROPPED || Step(w, e).At(e.p) != w.At(e.p)
    ensures e.resolver.None? ==> e.frame.epoch == 0
    ensures e.resolver.Some? ==>
              && e.frame.epoch in e.resolver.value
              && e.resolver.value[e.frame.epoch].epoch == e.frame.epoch
              && e.resolver.value[e.frame.epoch].rootSuite == w.At(e.p).live.rootSuite
  {}

  /** Keys of different messages, or of one message in different contexts, are cached apart. */
  lemma CachedApart(f: Frame, g: Frame, r: Resolver, q: Resolver)
    ensures CacheKeyOf(f, r) == CacheKeyOf(g, q) <==>
              && f.header.dhPub == g.header.dhPub && f.header.N == g.header.N
              && r.Some? == q.Some? && (r.Some? ==> f.epoch == g.epoch)
  {}

  /** A session that is under way cannot be primed again. */
  lemma PrimedOnce(w: World, p: Party, initiatorPub: KeyId, newKey: KeyId)
    requires Reachable(w)
    ensures Prime(w.At(p).live, initiatorPub, newKey) == Err(NotPristine)
  {
    var h := ReachableInv(w);
  }

  /** A first chunk opens only under the key that its own context gives: raw without one, combined with one. */
  lemma KeyOfContext(w: World, e: Event)
    requires w.Ready() && e.Deliver? && Received(w, e).outcome.stateAdvanced
    ensures var key := e.frame.ct.key;
            && (e.resolver.None? ==> key == Raw(key.mk))
            && (e.resolver.Some? && e.frame.epoch in e.resolver.value ==>
                  key == Combined(key.mk, e.resolver.value[e.frame.epoch], e.frame.header))
  {}
}
