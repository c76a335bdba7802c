/**
 Safety of every run of `RatchetRun`.

 All DH keys of a session form one sequence `xs`: b0, a0, b1, a1, b2, ... Chain `j` is headed by
 the root reached after `j - 1` agreements and the agreement of `xs[j-1]` with `xs[j]`; the owner
 of `xs[j]` sends on it. A `History` is that sequence with the number of messages sent on each
 chain; the joint invariant says where in it each live ratchet stands.
 */
module RatchetSafety {
  import opened Wrappers
  import opened Seqs
  import opened Ratchet
  import opened ChunkCrypto
  import opened RatchetRun

  datatype Timeline = Timeline(seed: RootKey, xs: seq<KeyId>, lens: seq<nat>)

  ghost predicate Consistent(h: Timeline) {
    h.seed.Seed? && |h.xs| >= 3 && |h.lens| == |h.xs| && h.lens[0] == 0 && NoDup(h.xs)
  }

  type History = h: Timeline | Consistent(h) ghost witness Timeline(Seed(0), [0, 1, 2], [0, 0, 0])

  ghost function RootAt(h: History, k: nat): RootKey
    requires k < |h.xs|
  {
    if k == 0 then h.seed else RkRoot(RootAt(h, k - 1), X25519(h.xs[k - 1], h.xs[k]))
  }

  ghost function HeadAt(h: History, j: nat): ChainKey
    requires 1 <= j < |h.xs|
  {
    RkChain(RootAt(h, j - 1), X25519(h.xs[j - 1], h.xs[j]))
  }

  ghost function KeyAt(h: History, j: nat, n: nat): MessageKey
    requires 1 <= j < |h.xs|
  {
    CkMessage(ChainAt(HeadAt(h, j), n))
  }

  /** The length of the chain before the previous one is what the headers of chain `j` announce. */
  ghost function PreviousLength(h: History, j: nat): nat
    requires 1 <= j < |h.xs|
  {
    if j == 1 then 0 else h.lens[j - 2]
  }

  ghost function MessageAt(h: History, j: nat, n: nat): Message
    requires 1 <= j < |h.xs|
  {
    Message(Header(h.xs[j], n, PreviousLength(h, j)), KeyAt(h, j, n))
  }

  predicate Owns(p: Party, j: nat) { (j % 2 == 1) == (p == Initiator) }

  /** The chain on which `p` currently sends: the last one it owns. */
  ghost function Position(h: History, p: Party): (k: nat)
    ensures 1 <= k < |h.xs| && Owns(p, k) && |h.xs| - 2 <= k
  {
    if Owns(p, |h.xs| - 1) then |h.xs| - 1 else |h.xs| - 2
  }

  /** The ratchet of `p` stands at its position, with the counters of the history. */
  ghost predicate StateOk(h: History, p: Party, st: State)
  {
    var k := Position(h, p);
    && st.Valid()
    && st.rootKey == RootAt(h, k)
    && st.dhSelf == h.xs[k]
    && st.dhRemotePub == Some(h.xs[k - 1])
    && st.sendingChainKey == Some(ChainAt(HeadAt(h, k), st.Ns))
    && st.receivingChainKey == (if k == 1 then None else Some(ChainAt(HeadAt(h, k - 1), st.Nr)))
    && st.Ns == h.lens[k] && st.PN == PreviousLength(h, k) && st.Nr <= h.lens[k - 1]
  }

  /** `sent` holds exactly the messages of the chains that `p` owns. */
  ghost predicate SentOk(h: History, p: Party, sent: seq<Message>)
  {
    && (forall m :: m in sent ==>
        exists j: nat, n: nat :: Owns(p, j) && 1 <= j < |h.xs| && n < h.lens[j] && m == MessageAt(h, j, n))
    && (forall j: nat, n: nat :: Owns(p, j) && 1 <= j < |h.xs| && n < h.lens[j] ==> MessageAt(h, j, n) in sent)
  }

  /** The chain that `x` heads; meaningful for keys of the history. */
  ghost function ChainOf(h: History, x: KeyId): (j: nat)
    ensures x in h.xs ==> j < |h.xs| && h.xs[j] == x
    ensures x !in h.xs ==> j == 0
  {
    if x in h.xs then var j: nat :| j < |h.xs| && h.xs[j] == x; j else 0
  }

  /** `p`, having received `nr` messages of the peer's current chain, has derived the key of `id`. */
  ghost predicate Derived(h: History, p: Party, nr: nat, id: MessageId)
  {
    var j, k := ChainOf(h, id.dhPub), Position(h, p);
    id.dhPub in h.xs && 1 <= j < k && !Owns(p, j) && id.n < if j == k - 1 then nr else h.lens[j]
  }

  /** The key under which the sender sealed `id`. */
  ghost function KeyOf(h: History, id: MessageId): MessageKey
    requires ChainOf(h, id.dhPub) >= 1
  {
    KeyAt(h, ChainOf(h, id.dhPub), id.n)
  }

  /** Each stored key is the sender's, for a derived message that was not consumed. */
  ghost predicate StoreOk(h: History, p: Party, nr: nat, keys: map<MessageId, MessageKey>)
  {
    forall id :: id in keys ==> Derived(h, p, nr, id) && keys[id] == KeyOf(h, id)
  }

  /** Each message was accepted at most once, and its key is gone from the store. */
  ghost predicate AcceptedOk(h: History, p: Party, nr: nat, keys: map<MessageId, MessageKey>, accepted: seq<MessageId>)
  {
    NoDup(accepted) && forall id :: id in accepted ==> Derived(h, p, nr, id) && id !in keys
  }

  /** Without eviction, every derived key was consumed or is still stored. */
  ghost predicate NothingLost(h: History, p: Party, nr: nat, keys: map<MessageId, MessageKey>, accepted: seq<MessageId>)
  {
    forall id :: Derived(h, p, nr, id) ==> id in accepted || id in keys
  }

  ghost predicate BooksOk(h: History, p: Party, nr: nat, keys: map<MessageId, MessageKey>,
                          accepted: seq<MessageId>, evicted: bool)
  {
    && StoreOk(h, p, nr, keys)
    && AcceptedOk(h, p, nr, keys, accepted)
    && (!evicted ==> NothingLost(h, p, nr, keys, accepted))
  }

  ghost predicate ReceivedOk(h: History, p: Party, peer: Peer)
  {
    && BooksOk(h, p, peer.live.Nr, peer.live.skipped.keys, peer.accepted, peer.evicted)
    && |peer.live.skipped.order| <= MAX_SKIP_SESSION
    && (forall ck :: ck in peer.cache ==> ck.id in peer.accepted)
  }

  ghost predicate PeerOk(h: History, p: Party, peer: Peer)
  {
    StateOk(h, p, peer.live) && SentOk(h, p, peer.sent) && ReceivedOk(h, p, peer)
  }

  ghost predicate Inv(w: World, h: History) {
    && PeerOk(h, Initiator, w.initiator)
    && PeerOk(h, Responder, w.responder)
    && (forall x :: x in h.xs ==> x in w.used)
  }

  // ----- the history only grows

  /** `g` extends `h`: more DH keys, and more messages on chains that are not yet superseded. */
  ghost predicate Extends(g: History, h: History) {
    && g.seed == h.seed && h.xs <= g.xs
    && (forall j :: 0 <= j < |h.xs| ==> h.lens[j] <= g.lens[j])
    && (forall j :: 0 <= j < |h.xs| - 2 ==> h.lens[j] == g.lens[j])
  }

  lemma {:induction false} RootStable(g: History, h: History, k: nat)
    requires Extends(g, h) && k < |h.xs|
    ensures RootAt(g, k) == RootAt(h, k)
  {
    if k != 0 { RootStable(g, h, k - 1); }
  }

  lemma MessageStable(g: History, h: History, j: nat, n: nat)
    requires Extends(g, h) && 1 <= j < |h.xs|
    ensures HeadAt(g, j) == HeadAt(h, j) && KeyAt(g, j, n) == KeyAt(h, j, n) && MessageAt(g, j, n) == MessageAt(h, j, n)
  {
    RootStable(g, h, j - 1);
  }

  /** Roots of different depth differ. */
  lemma {:induction false} RootDepth(h: History, k: nat, j: nat)
    requires k < |h.xs| && j < |h.xs| && RootAt(h, k) == RootAt(h, j) && h.seed.Seed?
    ensures k == j
    decreases k
  {
    if k != 0 && j != 0 { RootDepth(h, k - 1, j - 1); }
  }

  lemma KeyStable(g: History, h: History, id: MessageId)
    requires Extends(g, h) && id.dhPub in h.xs
    ensures ChainOf(g, id.dhPub) == ChainOf(h, id.dhPub)
    ensures ChainOf(h, id.dhPub) >= 1 ==> KeyOf(g, id) == KeyOf(h, id)
  {
    var j := ChainOf(h, id.dhPub);
    assert g.xs[j] == id.dhPub;
    if j >= 1 { MessageStable(g, h, j, id.n); }
  }

  lemma ReceivedStable(g: History, h: History, p: Party, me: Peer, peer: Peer)
    requires Extends(g, h) && ReceivedOk(h, p, me) && Position(g, p) == Position(h, p)
    requires peer.live.Nr == me.live.Nr && peer.live.skipped == me.live.skipped
    requires peer.cache == me.cache && peer.accepted == me.accepted && peer.evicted == me.evicted
    ensures ReceivedOk(g, p, peer)
  {
    forall id: MessageId | id.dhPub in h.xs
      ensures Derived(g, p, me.live.Nr, id) <==> Derived(h, p, me.live.Nr, id)
      ensures ChainOf(h, id.dhPub) >= 1 ==> ChainOf(g, id.dhPub) >= 1 && KeyOf(g, id) == KeyOf(h, id)
    {
      KeyStable(g, h, id);
    }
    forall id | Derived(g, p, me.live.Nr, id) ensures id.dhPub in h.xs {
      assert g.xs[ChainOf(g, id.dhPub)] in h.xs;
    }
  }

  lemma StateStable(g: History, h: History, p: Party, st: State)
    requires Extends(g, h) && StateOk(h, p, st) && Position(g, p) == Position(h, p)
    requires g.lens[Position(h, p)] == h.lens[Position(h, p)]
    ensures StateOk(g, p, st)
  {
    var k := Position(h, p);
    RootStable(g, h, k);
    MessageStable(g, h, k, 0);
    if k > 1 { MessageStable(g, h, k - 1, 0); }
  }

  lemma SentStable(g: History, h: History, p: Party, sent: seq<Message>)
    requires Extends(g, h) && SentOk(h, p, sent)
    requires forall j: nat :: Owns(p, j) && 1 <= j < |h.xs| ==> g.lens[j] == h.lens[j]
    requires forall j: nat :: Owns(p, j) && |h.xs| <= j < |g.xs| ==> g.lens[j] == 0
    ensures SentOk(g, p, sent)
  {
    forall j: nat, n: nat | 1 <= j < |h.xs| ensures MessageAt(g, j, n) == MessageAt(h, j, n) {
      MessageStable(g, h, j, n);
    }
  }

  /** A peer that did not move keeps its part of the invariant when the history grows elsewhere. */
  lemma PeerStable(g: History, h: History, p: Party, peer: Peer)
    requires Extends(g, h) && PeerOk(h, p, peer) && Position(g, p) == Position(h, p)
    requires forall j: nat :: Owns(p, j) && 1 <= j < |h.xs| ==> g.lens[j] == h.lens[j]
    ensures PeerOk(g, p, peer)
  {
    StateStable(g, h, p, peer.live);
    SentStable(g, h, p, peer.sent);
    ReceivedStable(g, h, p, peer, peer);
  }

  // ----- sending

  ghost function AfterSend(h: History, p: Party): History
  {
    var k := Position(h, p);
    h.(lens := h.lens[k := h.lens[k] + 1])
  }

  lemma SentGrows(h: History, p: Party, sent: seq<Message>)
    requires SentOk(h, p, sent)
    ensures var g, k := AfterSend(h, p), Position(h, p);
            SentOk(g, p, sent + [MessageAt(g, k, h.lens[k])])
  {
    var g, k := AfterSend(h, p), Position(h, p);
    assert Extends(g, h);
    forall j: nat, n: nat | 1 <= j < |h.xs| ensures MessageAt(g, j, n) == MessageAt(h, j, n) {
      MessageStable(g, h, j, n);
    }
  }

  lemma SenderKeepsInv(h: History, p: Party, me: Peer, peer: Peer)
    requires PeerOk(h, p, me) && Encrypt(me.live).Ok?
    requires var (st, key, header) := Encrypt(me.live).value;
             peer == me.(live := st, sent := me.sent + [Message(header, key)])
    ensures PeerOk(AfterSend(h, p), p, peer)
  {
    var g, k := AfterSend(h, p), Position(h, p);
    assert Extends(g, h);
    RootStable(g, h, k);
    MessageStable(g, h, k, h.lens[k]);
    if k > 1 { MessageStable(g, h, k - 1, 0); }
    SentGrows(h, p, me.sent);
    ReceivedStable(g, h, p, me, peer);
  }

  lemma SendKeepsInv(w: World, h: History, p: Party)
    requires Inv(w, h)
    ensures w.Ready() && Inv(Step(w, Send(p)), AfterSend(h, p))
  {
    assert Extends(AfterSend(h, p), h);
    PeerStable(AfterSend(h, p), h, Other(p), w.At(Other(p)));
    SenderKeepsInv(h, p, w.At(p), Step(w, Send(p)).At(p));
  }

  // ----- which messages can be decrypted

  /**
   The exact condition under which `p` derives the right key for message `n` of chain `j`: its key
   is stored, or it lies ahead on the current receiving chain, or it is on the peer's next chain;
   in the last two cases within the skip limits.
   */
  ghost predicate Obtainable(h: History, p: Party, st: State, j: nat, n: nat)
    requires 1 <= j < |h.xs|
  {
    var k := Position(h, p);
    || MessageId(h.xs[j], n) in st.skipped.keys
    || (j == k - 1 && st.Nr <= n <= st.Nr + MAX_SKIP)
    || (j == k + 1 && PreviousLength(h, j) <= st.Nr + MAX_SKIP && n <= MAX_SKIP)
  }

  lemma SkipFrame(st: State, until: nat)
    requires st.Valid()
    ensures var r := SkipMessageKeys(st, until);
            r.Some? ==>
              && r.value.rootKey == st.rootKey && r.value.dhSelf == st.dhSelf && r.value.Ns == st.Ns
              && r.value.Valid()
    ensures SkipMessageKeys(st, until).Some? <==> until <= st.Nr + MAX_SKIP
  {
    SkipValid(st, until);
    if st.receivingChainKey.Some? { SkipChainFrame(st, until); }
  }

  lemma {:induction false} SkipChainFrame(st: State, until: nat)
    requires st.receivingChainKey.Some? && st.dhRemotePub.Some?
    ensures var s := SkipChain(st, until); s.rootKey == st.rootKey && s.dhSelf == st.dhSelf && s.Ns == st.Ns
    decreases until - st.Nr
  {
    if st.Nr < until { SkipChainFrame(SkipOne(st), until); }
  }

  /** A step at the wrong position leads to a different chain. */
  lemma HeadsEqual(h: History, k: nat, j: nat, n: nat)
    requires k < |h.xs| && 1 <= j < |h.xs|
    requires ChainAt(RkChain(RootAt(h, k), X25519(h.xs[k], h.xs[j])), n) == ChainAt(HeadAt(h, j), n)
    ensures j == k + 1
  {
    ChainAtInjective(RkChain(RootAt(h, k), X25519(h.xs[k], h.xs[j])), HeadAt(h, j), n);
    RootDepth(h, k, j - 1);
  }

  /** The case of a chain that the receiver does not stand on. */
  lemma DecryptOtherChain(h: History, p: Party, st: State, j: nat, n: nat, newKey: KeyId)
    requires StateOk(h, p, st) && 1 <= j < |h.xs| && j != Position(h, p) - 1
    requires MessageId(h.xs[j], n) !in st.skipped.keys
    ensures var m := MessageAt(h, j, n);
            Decrypt(st, m.header, newKey).key == Ok(m.key) <==> Obtainable(h, p, st, j, n)
  {
    var k, m := Position(h, p), MessageAt(h, j, n);
    SkipFrame(st, m.header.PN);
    var s := SkipMessageKeys(st, m.header.PN);
    if s.Some? {
      var d := DhStep(s.value, h.xs[j], newKey);
      var head := RkChain(RootAt(h, k), X25519(h.xs[k], h.xs[j]));
      assert d.receivingChainKey == Some(ChainAt(head, 0));
      ForwardClosedForm(d, n, head);
      if ChainAt(head, n) == ChainAt(HeadAt(h, j), n) { HeadsEqual(h, k, j, n); }
    }
  }

  /** For a message of either peer, `Decrypt` returns the sender's key exactly when it is obtainable. */
  lemma DecryptExact(h: History, p: Party, me: Peer, j: nat, n: nat, newKey: KeyId)
    requires StateOk(h, p, me.live) && StoreOk(h, p, me.live.Nr, me.live.skipped.keys) && 1 <= j < |h.xs|
    ensures var m := MessageAt(h, j, n);
            Decrypt(me.live, m.header, newKey).key == Ok(m.key) <==> Obtainable(h, p, me.live, j, n)
  {
    var st, k, m := me.live, Position(h, p), MessageAt(h, j, n);
    if IdOf(m.header) in st.skipped.keys {
    } else if j == k - 1 {
      ForwardClosedForm(st, n, HeadAt(h, k - 1));
    } else {
      DecryptOtherChain(h, p, st, j, n, newKey);
    }
  }

  // ----- accepting a message

  ghost function Skipped(me: Peer, until: nat): Peer
    requires me.live.receivingChainKey.Some? && me.live.dhRemotePub.Some?
  {
    var s := SkipChain(me.live, until);
    me.(live := s.(skipped := s.skipped.Evict()), evicted := me.evicted || |s.skipped.order| > MAX_SKIP_SESSION)
  }

  ghost predicate ReceivingAt(h: History, p: Party, st: State)
  {
    var k := Position(h, p);
    && st.Valid() && k > 1
    && st.dhRemotePub == Some(h.xs[k - 1]) && st.receivingChainKey == Some(ChainAt(HeadAt(h, k - 1), st.Nr))
  }

  /** Receiving further along the current chain derives exactly the indices in between. */
  lemma DerivedFurther(h: History, p: Party, nr: nat, until: nat, id: MessageId)
    requires nr <= until && Position(h, p) > 1
    ensures Derived(h, p, until, id) <==>
            Derived(h, p, nr, id) || (id.dhPub == h.xs[Position(h, p) - 1] && nr <= id.n < until)
    ensures id.dhPub == h.xs[Position(h, p) - 1] ==> (Derived(h, p, nr, id) <==> id.n < nr)
    ensures id.dhPub == h.xs[Position(h, p) - 1] ==> ChainOf(h, id.dhPub) == Position(h, p) - 1
  {}

  /** The keys of the indices in between join the store. */
  lemma BooksSkip(h: History, p: Party, nr: nat, until: nat, keys: map<MessageId, MessageKey>,
      more: map<MessageId, MessageKey>, accepted: seq<MessageId>, evicted: bool)
    requires Position(h, p) > 1 && nr <= until && BooksOk(h, p, nr, keys, accepted, evicted)
    requires StoreExtended(keys, more, h.xs[Position(h, p) - 1], HeadAt(h, Position(h, p) - 1), nr, until)
    ensures BooksOk(h, p, until, more, accepted, evicted)
  {
    var k := Position(h, p);
    forall id: MessageId
      ensures Derived(h, p, until, id) <==> Derived(h, p, nr, id) || (id.dhPub == h.xs[k - 1] && nr <= id.n < until)
      ensures id.dhPub == h.xs[k - 1] ==> ChainOf(h, id.dhPub) == k - 1 && (Derived(h, p, nr, id) <==> id.n < nr)
    {
      DerivedFurther(h, p, nr, until, id);
    }
  }

  lemma SkipKeepsReceived(h: History, p: Party, me: Peer, until: nat)
    requires ReceivedOk(h, p, me) && ReceivingAt(h, p, me.live)
    requires me.live.Nr <= until <= h.lens[Position(h, p) - 1]
    ensures ReceivedOk(h, p, Skipped(me, until)) && ReceivingAt(h, p, Skipped(me, until).live)
    ensures Skipped(me, until).live.Nr == until
  {
    var st, s := me.live, SkipChain(me.live, until);
    SkipChainClosedForm(st, until, HeadAt(h, Position(h, p) - 1));
    BooksSkip(h, p, st.Nr, until, st.skipped.keys, s.skipped.keys, me.accepted, me.evicted);
    EvictOldestFirst(s.skipped);
  }

  /** The next message of the current receiving chain is consumed. */
  lemma BooksConsume(h: History, p: Party, n: nat, keys: map<MessageId, MessageKey>, accepted: seq<MessageId>,
      evicted: bool)
    requires Position(h, p) > 1 && BooksOk(h, p, n, keys, accepted, evicted)
    ensures var id := MessageId(h.xs[Position(h, p) - 1], n);
            id !in accepted && BooksOk(h, p, n + 1, keys, accepted + [id], evicted)
  {
    var id := MessageId(h.xs[Position(h, p) - 1], n);
    forall i: MessageId
      ensures Derived(h, p, n + 1, i) <==> Derived(h, p, n, i) || i == id
      ensures i == id ==> !Derived(h, p, n, i)
    {
      DerivedFurther(h, p, n, n + 1, i);
    }
    NoDupAppend(accepted, id);
  }

  /** A stored key is consumed. */
  lemma BooksTake(h: History, p: Party, n: nat, keys: map<MessageId, MessageKey>, accepted: seq<MessageId>,
      evicted: bool, id: MessageId)
    requires BooksOk(h, p, n, keys, accepted, evicted) && id in keys
    ensures id !in accepted && BooksOk(h, p, n, keys - {id}, accepted + [id], evicted)
  {
    NoDupAppend(accepted, id);
  }

  ghost function AfterStep(h: History, newKey: KeyId): History
    requires newKey !in h.xs
  {
    h.(xs := h.xs + [newKey], lens := h.lens + [0])
  }

  /** The DH step opens a new receiving chain; the superseded one is completely derived. */
  lemma StepKeepsReceived(h: History, p: Party, me: Peer, peer: Peer, newKey: KeyId)
    requires ReceivedOk(h, p, me) && newKey !in h.xs && Position(h, p) == |h.xs| - 2
    requires me.live.Nr == h.lens[Position(h, p) - 1]
    requires peer == me.(live := peer.live) && peer.live.Nr == 0 && peer.live.skipped == me.live.skipped
    ensures ReceivedOk(AfterStep(h, newKey), p, peer)
  {
    var g, k := AfterStep(h, newKey), Position(h, p);
    assert Extends(g, h) && Position(g, p) == k + 2;
    forall id: MessageId | id.dhPub in h.xs
      ensures Derived(g, p, 0, id) <==> Derived(h, p, me.live.Nr, id)
      ensures ChainOf(h, id.dhPub) >= 1 ==> ChainOf(g, id.dhPub) >= 1 && KeyOf(g, id) == KeyOf(h, id)
    {
      KeyStable(g, h, id);
    }
    forall id | Derived(g, p, 0, id) ensures id.dhPub in h.xs {
      assert g.xs[ChainOf(g, id.dhPub)] in h.xs;
    }
  }

  lemma StepState(h: History, p: Party, st: State, newKey: KeyId)
    requires newKey !in h.xs && st.Valid()
    requires var k := Position(h, p);
             k == |h.xs| - 2 && st.rootKey == RootAt(h, k) && st.dhSelf == h.xs[k] && st.Ns == h.lens[k]
    ensures StateOk(AfterStep(h, newKey), p, DhStep(st, h.xs[Position(h, p) + 1], newKey))
  {
    var g, k := AfterStep(h, newKey), Position(h, p);
    assert Extends(g, h) && Position(g, p) == k + 2;
    RootStable(g, h, k);
    MessageStable(g, h, k + 1, 0);
    assert RootAt(g, k + 1) == RkRoot(RootAt(g, k), X25519(g.xs[k], g.xs[k + 1]));
  }

  /** The receiver after its ratchet stepped for a message. */
  ghost function Accepting(me: Peer, header: Header, newKey: KeyId, ck: CacheKey, key: AeadKey): Peer
    requires me.live.receivingChainKey.Some? ==> me.live.dhRemotePub.Some?
  {
    me.(live := Decrypt(me.live, header, newKey).state, cache := me.cache[ck := key],
        accepted := me.accepted + [ck.id], evicted := me.evicted || Evicts(me.live, header, newKey))
  }

  /** The peer finished its previous chain before it moved on; skipping to `PN` derives all of it. */
  lemma FinishChain(h: History, p: Party, me: Peer, pn: nat)
    requires PeerOk(h, p, me)
    requires var k := Position(h, p); pn <= me.live.Nr + MAX_SKIP && pn == h.lens[k - 1]
    ensures SkipMessageKeys(me.live, pn).Some?
    ensures var s := SkipMessageKeys(me.live, pn).value;
            var peer := me.(live := s, evicted := me.evicted || SkipOverflows(me.live, pn));
            && s.Valid() && s.rootKey == me.live.rootKey && s.dhSelf == me.live.dhSelf && s.Ns == me.live.Ns
            && s.Nr == pn && ReceivedOk(h, p, peer)
  {
    SkipFrame(me.live, pn);
    if Position(h, p) > 1 { SkipKeepsReceived(h, p, me, pn); }
  }

  lemma ForwardAccepted(g: History, p: Party, stepped: Peer, n: nat, ck: CacheKey, key: AeadKey)
    requires PeerOk(g, p, stepped) && Position(g, p) > 1
    requires stepped.live.Nr <= n <= stepped.live.Nr + MAX_SKIP && n < g.lens[Position(g, p) - 1]
    requires ck.id == MessageId(g.xs[Position(g, p) - 1], n)
    ensures var peer := stepped.(live := Forward(stepped.live, n).state, cache := stepped.cache[ck := key],
                                 accepted := stepped.accepted + [ck.id],
                                 evicted := stepped.evicted || SkipOverflows(stepped.live, n));
            PeerOk(g, p, peer) && ck.id !in stepped.accepted
  {
    ForwardClosedForm(stepped.live, n, HeadAt(g, Position(g, p) - 1));
    SkipKeepsReceived(g, p, stepped, n);
    EvictOldestFirst(SkipChain(stepped.live, n).skipped);
    var peer := stepped.(live := Forward(stepped.live, n).state, cache := stepped.cache[ck := key],
                         accepted := stepped.accepted + [ck.id],
                         evicted := stepped.evicted || SkipOverflows(stepped.live, n));
    var k := Skipped(stepped, n);
    BooksConsume(g, p, n, k.live.skipped.keys, k.accepted, k.evicted);
  }

  lemma AcceptForward(h: History, p: Party, me: Peer, header: Header, newKey: KeyId, ck: CacheKey, key: AeadKey)
    requires PeerOk(h, p, me) && ck.id == IdOf(header) && ck.id !in me.live.skipped.keys
    requires var k := Position(h, p);
             && k > 1 && header.dhPub == h.xs[k - 1]
             && me.live.Nr <= header.N <= me.live.Nr + MAX_SKIP && header.N < h.lens[k - 1]
    ensures PeerOk(h, p, Accepting(me, header, newKey, ck, key)) && ck.id !in me.accepted
  {
    ForwardAccepted(h, p, me, header.N, ck, key);
  }

  /** The receiver between the DH step and the derivation on its new receiving chain. */
  ghost function Stepped(me: Peer, header: Header, newKey: KeyId): Peer
    requires me.live.receivingChainKey.Some? ==> me.live.dhRemotePub.Some?
    requires SkipMessageKeys(me.live, header.PN).Some?
  {
    me.(live := DhStep(SkipMessageKeys(me.live, header.PN).value, header.dhPub, newKey),
        evicted := me.evicted || SkipOverflows(me.live, header.PN))
  }

  lemma SteppedOk(h: History, p: Party, me: Peer, header: Header, newKey: KeyId)
    requires PeerOk(h, p, me) && newKey !in h.xs
    requires var k := Position(h, p);
             k == |h.xs| - 2 && header.dhPub == h.xs[k + 1] && header.PN == h.lens[k - 1] <= me.live.Nr + MAX_SKIP
    ensures SkipMessageKeys(me.live, header.PN).Some?
    ensures PeerOk(AfterStep(h, newKey), p, Stepped(me, header, newKey))
  {
    var g, k := AfterStep(h, newKey), Position(h, p);
    FinishChain(h, p, me, header.PN);
    var s := SkipMessageKeys(me.live, header.PN).value;
    var finished := me.(live := s, evicted := me.evicted || SkipOverflows(me.live, header.PN));
    StepState(h, p, s, newKey);
    StepKeepsReceived(h, p, finished, Stepped(me, header, newKey), newKey);
    assert Extends(g, h) && Position(g, p) == k + 2;
    SentStable(g, h, p, me.sent);
  }

  lemma AcceptStep(h: History, p: Party, me: Peer, header: Header, newKey: KeyId, ck: CacheKey, key: AeadKey)
    requires PeerOk(h, p, me) && newKey !in h.xs && ck.id == IdOf(header) && ck.id !in me.live.skipped.keys
    requires var k := Position(h, p);
             && k == |h.xs| - 2 && header.dhPub == h.xs[k + 1] && header.PN == h.lens[k - 1] <= me.live.Nr + MAX_SKIP
             && header.N <= MAX_SKIP && header.N < h.lens[k + 1]
    ensures PeerOk(AfterStep(h, newKey), p, Accepting(me, header, newKey, ck, key)) && ck.id !in me.accepted
  {
    SteppedOk(h, p, me, header, newKey);
    ForwardAccepted(AfterStep(h, newKey), p, Stepped(me, header, newKey), header.N, ck, key);
  }

  lemma AcceptStored(h: History, p: Party, me: Peer, header: Header, newKey: KeyId, ck: CacheKey, key: AeadKey)
    requires PeerOk(h, p, me) && ck.id == IdOf(header) && ck.id in me.live.skipped.keys
    ensures PeerOk(h, p, Accepting(me, header, newKey, ck, key)) && ck.id !in me.accepted
  {
    RemoveValid(me.live.skipped, ck.id);
    BooksTake(h, p, me.live.Nr, me.live.skipped.keys, me.accepted, me.evicted, ck.id);
  }

  /** What the rest of the session may rely on when one side's history moved from `h` to `g`. */
  ghost predicate GrowsBy(g: History, h: History, newKey: KeyId) {
    && Extends(g, h)
    && (forall i :: 0 <= i < |h.xs| ==> g.lens[i] == h.lens[i])
    && (forall x :: x in g.xs ==> x in h.xs || x == newKey)
  }

  lemma AfterStepGrows(h: History, p: Party, newKey: KeyId)
    requires newKey !in h.xs && Position(h, p) == |h.xs| - 2
    ensures GrowsBy(AfterStep(h, newKey), h, newKey)
    ensures Position(AfterStep(h, newKey), Other(p)) == Position(h, Other(p))
  {}

  /** Only messages of the peer are obtainable: a peer cannot be made to accept its own. */
  lemma ObtainableFromPeer(h: History, p: Party, st: State, j: nat, n: nat)
    requires StoreOk(h, p, st.Nr, st.skipped.keys) && 1 <= j < |h.xs| && Obtainable(h, p, st, j, n)
    ensures !Owns(p, j)
  {
    assert ChainOf(h, h.xs[j]) == j;
  }

  /** Accepting an obtainable message keeps the invariant, and happens at most once per message. */
  lemma AcceptKeepsInv(h: History, p: Party, me: Peer, j: nat, header: Header, newKey: KeyId, ck: CacheKey,
      key: AeadKey)
    returns (g: History)
    requires PeerOk(h, p, me) && newKey !in h.xs && 1 <= j < |h.xs| && header.N < h.lens[j]
    requires header == MessageAt(h, j, header.N).header && Obtainable(h, p, me.live, j, header.N)
    requires ck.id == IdOf(header)
    ensures GrowsBy(g, h, newKey) && Position(g, Other(p)) == Position(h, Other(p))
    ensures PeerOk(g, p, Accepting(me, header, newKey, ck, key)) && ck.id !in me.accepted
  {
    if ck.id in me.live.skipped.keys {
      g := h;
      AcceptStored(h, p, me, header, newKey, ck, key);
    } else if j == Position(h, p) - 1 {
      g := h;
      AcceptForward(h, p, me, header, newKey, ck, key);
    } else {
      g := AfterStep(h, newKey);
      AfterStepGrows(h, p, newKey);
      AcceptStep(h, p, me, header, newKey, ck, key);
    }
  }

  /** What a delivery did, when it stepped the ratchet: it was the first one of a message of the peer. */
  ghost predicate FirstOfPeer(w: World, e: Event)
    requires e.Deliver?
  {
    && IdOf(e.frame.header) !in w.At(e.p).accepted
    && exists m :: m in w.At(Other(e.p)).sent && m.header == e.frame.header && e.frame.ct.Sealed?
        && e.frame.ct.key.mk == m.key
  }

  /** A delivery that does not step the ratchet changes neither ratchet nor cache. */
  lemma NotAdvanced(w: World, e: Event)
    requires w.Ready() && e.Deliver? && !Received(w, e).outcome.stateAdvanced
    ensures Step(w, e) == w.(used := w.used + {e.newKey})
  {}

  lemma Advanced(w: World, e: Event)
    requires w.Ready() && e.Deliver? && Received(w, e).outcome.stateAdvanced
    ensures var me, ck, ct := w.At(e.p), CacheKeyOf(e.frame, e.resolver), e.frame.ct;
            && ct.Sealed? && ct.aad.header == e.frame.header && ck !in me.cache
            && Decrypt(me.live, e.frame.header, e.newKey).key == Ok(ct.key.mk)
            && var peer := Accepting(me, e.frame.header, e.newKey, ck, ct.key);
               Step(w, e) == w.With(e.p, peer).(used := w.used + {e.newKey})
  {}

  /** Where in the history a sent message stands. */
  lemma SentPosition(w: World, h: History, q: Party, m: Message) returns (j: nat, n: nat)
    requires Inv(w, h) && m in w.At(q).sent
    ensures Owns(q, j) && 1 <= j < |h.xs| && n < h.lens[j] && m == MessageAt(h, j, n)
  {
    j, n :| Owns(q, j) && 1 <= j < |h.xs| && n < h.lens[j] && m == MessageAt(h, j, n);
  }

  /** A delivery that steps the ratchet carries a message of the peer that can be obtained. */
  lemma AdvancedIsObtainable(w: World, h: History, e: Event) returns (j: nat)
    requires Inv(w, h) && e.Deliver? && Enabled(w, e) && w.Ready() && Received(w, e).outcome.stateAdvanced
    ensures 1 <= j < |h.xs| && !Owns(e.p, j) && e.frame.header.N < h.lens[j]
    ensures var m := MessageAt(h, j, e.frame.header.N);
            m.header == e.frame.header && m.key == e.frame.ct.key.mk && m in w.At(Other(e.p)).sent
    ensures Obtainable(h, e.p, w.At(e.p).live, j, e.frame.header.N)
  {
    Advanced(w, e);
    var sender: Party, m: Message :| m in w.At(sender).sent && e.frame.ct.key.mk == m.key
        && e.frame.ct.aad.header == m.header;
    var n: nat;
    j, n := SentPosition(w, h, sender, m);
    assert PeerOk(h, e.p, w.At(e.p));
    DecryptExact(h, e.p, w.At(e.p), j, n, e.newKey);
    ObtainableFromPeer(h, e.p, w.At(e.p).live, j, n);
  }

  lemma DeliverKeepsInv(w: World, h: History, e: Event) returns (g: History)
    requires Inv(w, h) && e.Deliver? && Enabled(w, e)
    ensures w.Ready() && Inv(Step(w, e), g)
    ensures Received(w, e).outcome.stateAdvanced ==> FirstOfPeer(w, e)
  {
    assert w.Ready();
    if !Received(w, e).outcome.stateAdvanced {
      NotAdvanced(w, e);
      return h;
    }
    Advanced(w, e);
    var j := AdvancedIsObtainable(w, h, e);
    g := AcceptKeepsInv(h, e.p, w.At(e.p), j, e.frame.header, e.newKey, CacheKeyOf(e.frame, e.resolver),
        e.frame.ct.key);
    PeerStable(g, h, Other(e.p), w.At(Other(e.p)));
  }

  lemma StepKeepsInv(w: World, h: History, e: Event) returns (g: History)
    requires Inv(w, h) && Enabled(w, e)
    ensures w.Ready() && Inv(Step(w, e), g)
  {
    match e {
      case Send(p) =>
        SendKeepsInv(w, h, p);
        g := AfterSend(h, p);
      case Deliver(_, _, _, _, _) =>
        g := DeliverKeepsInv(w, h, e);
      case EvictCache(p, key) =>
        g := h;
    }
  }

  lemma StartInv(id: nat, suite: RootSuite, a0: KeyId, b0: KeyId, b1: KeyId) returns (h: History)
    requires a0 != b0 && a0 != b1 && b0 != b1
    ensures Inv(Start(Seed(id), suite, a0, b0, b1), h)
  {
    h := Timeline(Seed(id), [b0, a0, b1], [0, 0, 0]);
    assert RootAt(h, 1) == RkRoot(RootAt(h, 0), X25519(b0, a0));
    assert RootAt(h, 2) == RkRoot(RootAt(h, 1), X25519(a0, b1));
  }

  lemma {:induction false} RunKeepsInv(w: World, h: History, es: seq<Event>) returns (g: History)
    requires Inv(w, h)
    requires w.Ready() && ValidRun(w, es)
    ensures Inv(Run(w, es), g)
    decreases |es|
  {
    if es == [] { return h; }
    var next := StepKeepsInv(w, h, es[0]);
    g := RunKeepsInv(Step(w, es[0]), next, es[1..]);
  }
}
