/**
 Whole runs of two ratchet peers over a hostile network.

 Either peer may send at any time; the network may deliver any frame to either peer, any number
 of times and in any order: junk, frames with rewritten headers, ciphertexts of either peer
 (also reflected to their own sender). The only thing it cannot do is produce a ciphertext that
 nobody sealed. The theorems about these runs are in `RatchetTheorems`.
 */
module RatchetRun {
  import opened Wrappers
  import opened Ratchet
  import opened ChunkCrypto

  datatype Party = Initiator | Responder

  function Other(p: Party): Party { if p == Initiator then Responder else Initiator }

  datatype Message = Message(header: Header, key: MessageKey)

  /**
   One peer. `sent`, `accepted` and `evicted` record history: what it encrypted, the messages
   whose arrival stepped its ratchet (in order), and whether its store ever dropped a key.
   */
  datatype Peer = Peer(
    live: State,
    cache: map<CacheKey, AeadKey>,
    sent: seq<Message>,
    accepted: seq<MessageId>,
    evicted: bool)

  datatype World = World(initiator: Peer, responder: Peer, used: set<KeyId>) {
    function At(p: Party): Peer { if p == Initiator then initiator else responder }

    function With(p: Party, peer: Peer): World {
      if p == Initiator then this.(initiator := peer) else this.(responder := peer)
    }

    /** Every live state can be handed to `Decrypt`. */
    predicate Ready() {
      && (initiator.live.receivingChainKey.Some? ==> initiator.live.dhRemotePub.Some?)
      && (responder.live.receivingChainKey.Some? ==> responder.live.dhRemotePub.Some?)
    }
  }

  datatype Event =
    | Send(p: Party)
    | Deliver(p: Party, frame: Frame, merkleRoot: nat, resolver: Resolver, newKey: KeyId)
    | EvictCache(p: Party, key: CacheKey)

  /** Both peers right after the handshake: the responder is primed with the initiator's key. */
  function Start(seed: RootKey, suite: RootSuite, a0: KeyId, b0: KeyId, b1: KeyId): World {
    var a := InitInitiator(seed, a0, b0, suite);
    var b := Prime(InitResponder(seed, b0, suite), a0, b1).value;
    World(Peer(a, map[], [], [], false), Peer(b, map[], [], [], false), {a0, b0, b1})
  }

  /** The ciphertext was sealed by one of the peers, for the header in its associated data. */
  ghost predicate Genuine(w: World, ct: Ciphertext) {
    ct.Sealed? && exists q, m :: m in w.At(q).sent && ct.key.mk == m.key && ct.aad.header == m.header
  }

  ghost predicate Enabled(w: World, e: Event) {
    e.Deliver? ==> e.newKey !in w.used && (e.frame.ct.Junk? || Genuine(w, e.frame.ct))
  }

  ghost function Received(w: World, e: Event): Receipt
    requires w.Ready() && e.Deliver?
  {
    Receive(w.At(e.p).live, w.At(e.p).cache, e.frame, e.merkleRoot, e.resolver, e.newKey)
  }

  ghost function Step(w: World, e: Event): (w': World)
    requires w.Ready()
    ensures w'.Ready()
  {
    var me := w.At(e.p);
    match e
    case Send(p) =>
      (match Encrypt(me.live)
       case Err(_) => w
       case Ok((st, key, header)) => w.With(p, me.(live := st, sent := me.sent + [Message(header, key)])))
    case Deliver(p, frame, _, _, newKey) =>
      var r := Received(w, e);
      var peer := me.(live := r.state, cache := r.cache);
      var peer' := if r.outcome.stateAdvanced
                   then peer.(accepted := me.accepted + [IdOf(frame.header)],
                              evicted := me.evicted || Evicts(me.live, frame.header, newKey))
                   else peer;
      ReceiveReady(me.live, me.cache, frame, e.merkleRoot, e.resolver, newKey);
      w.With(p, peer').(used := w.used + {newKey})
    case EvictCache(p, key) => w.With(p, me.(cache := me.cache - {key}))
  }

  lemma ReceiveReady(st: State, cache: map<CacheKey, AeadKey>, frame: Frame, merkleRoot: nat, resolver: Resolver,
      newKey: KeyId)
    requires st.receivingChainKey.Some? ==> st.dhRemotePub.Some?
    ensures var s := Receive(st, cache, frame, merkleRoot, resolver, newKey).state;
            s.receivingChainKey.Some? ==> s.dhRemotePub.Some?
  {
    SkipReady(st, frame.header.N);
    SkipReady(st, frame.header.PN);
    var s := SkipMessageKeys(st, frame.header.PN);
    if s.Some? { SkipReady(DhStep(s.value, frame.header.dhPub, newKey), frame.header.N); }
  }

  lemma SkipReady(st: State, until: nat)
    requires st.receivingChainKey.Some? ==> st.dhRemotePub.Some?
    ensures var s := SkipMessageKeys(st, until); s.Some? && s.value.receivingChainKey.Some? ==>
        s.value.dhRemotePub.Some?
  {
    if st.receivingChainKey.Some? { SkipChainReady(st, until); }
  }

  lemma {:induction false} SkipChainReady(st: State, until: nat)
    requires st.receivingChainKey.Some? && st.dhRemotePub.Some?
    ensures SkipChain(st, until).dhRemotePub.Some?
    decreases until - st.Nr
  {
    if st.Nr < until { SkipChainReady(SkipOne(st), until); }
  }

  ghost function Run(w: World, es: seq<Event>): (w': World)
    requires w.Ready()
    ensures w'.Ready()
    decreases |es|
  {
    if es == [] then w else Run(Step(w, es[0]), es[1..])
  }

  ghost predicate ValidRun(w: World, es: seq<Event>)
    requires w.Ready()
    decreases |es|
  {
    es == [] || (Enabled(w, es[0]) && ValidRun(Step(w, es[0]), es[1..]))
  }
}
