/**
 Per-chunk receive of `src/handlers/messageChunkCrypto.ts`: derive the message key on a clone of
 the ratchet, authenticate, then adopt or discard the clone.

 AEAD is symbolic: a ciphertext opens under exactly the key and associated data it was sealed
 with. `proofOk` stands for the Merkle check that follows decryption.
 */
module ChunkCrypto {
  import opened Wrappers
  import opened Ratchet
  import opened RatchetObject

  /** One post-quantum epoch as the message-key combiner sees it. */
  datatype PqContext = PqContext(epoch: nat, rootSuite: RootSuite, root: nat)

  /** Without a context the classical key is used as it is. */
  datatype AeadKey = Raw(mk: MessageKey) | Combined(mk: MessageKey, ctx: PqContext, header: Header)

  datatype Aad = Aad(merkleRoot: nat, header: Header, epoch: nat)

  datatype Ciphertext = Junk | Sealed(key: AeadKey, aad: Aad, proofOk: bool, chunk: nat)

  datatype Frame = Frame(header: Header, epoch: nat, ct: Ciphertext)

  datatype CacheKey = CacheKey(id: MessageId, epoch: Option<nat>)

  type Resolver = Option<map<nat, PqContext>>

  function Combine(mk: MessageKey, ctx: Option<PqContext>, header: Header): AeadKey {
    match ctx case None => Raw(mk) case Some(c) => Combined(mk, c, header)
  }

  function SealChunk(mk: MessageKey, header: Header, ctx: Option<PqContext>, merkleRoot: nat,
                     proofOk: bool, chunk: nat): Frame
  {
    var epoch := match ctx case None => 0 case Some(c) => c.epoch;
    Frame(header, epoch, Sealed(Combine(mk, ctx, header), Aad(merkleRoot, header, epoch), proofOk, chunk))
  }

  predicate Opens(frame: Frame, merkleRoot: nat, key: AeadKey) {
    frame.ct.Sealed? && frame.ct.key == key && frame.ct.aad == Aad(merkleRoot, frame.header, frame.epoch)
  }

  /** The authorised context of a frame, or a refusal before anything is derived. */
  function ResolveContext(frame: Frame, resolver: Resolver, suite: RootSuite): Option<Option<PqContext>> {
    match resolver
    case None => if frame.epoch == 0 then Some(None) else None
    case Some(contexts) =>
      if frame.epoch in contexts && contexts[frame.epoch].epoch == frame.epoch
          && contexts[frame.epoch].rootSuite == suite
      then Some(Some(contexts[frame.epoch]))
      else None
  }

  function CacheKeyOf(frame: Frame, resolver: Resolver): CacheKey {
    CacheKey(IdOf(frame.header), if resolver.Some? then Some(frame.epoch) else None)
  }

  datatype Outcome = Outcome(decrypted: Option<nat>, ok: bool, stateAdvanced: bool)

  datatype Receipt = Receipt(state: State, cache: map<CacheKey, AeadKey>, outcome: Outcome)

  const DROPPED := Outcome(None, false, false)

  function Opened(frame: Frame, stateAdvanced: bool): Outcome
    requires frame.ct.Sealed?
  {
    Outcome(if frame.ct.proofOk then Some(frame.ct.chunk) else None, frame.ct.proofOk, stateAdvanced)
  }

  /** `decryptMessageChunk` as a function of the live state, the cache and the frame. */
  function Receive(st: State, cache: map<CacheKey, AeadKey>, frame: Frame, merkleRoot: nat,
                   resolver: Resolver, newKey: KeyId): Receipt
    requires st.receivingChainKey.Some? ==> st.dhRemotePub.Some?
  {
    var rejected := Receipt(st, cache, DROPPED);
    match ResolveContext(frame, resolver, st.rootSuite)
    case None => rejected
    case Some(ctx) =>
      var cacheKey := CacheKeyOf(frame, resolver);
      if cacheKey in cache then
        if Opens(frame, merkleRoot, cache[cacheKey]) then rejected.(outcome := Opened(frame, false)) else rejected
      else
        var attempt := Decrypt(st, frame.header, newKey);
        if attempt.key.Err? then rejected
        else
          var key := Combine(attempt.key.value, ctx, frame.header);
          if Opens(frame, merkleRoot, key) then
            Receipt(attempt.state, cache[cacheKey := key], Opened(frame, true))
          else rejected
  }

  class KeyCache {
    var keys: map<CacheKey, AeadKey>
  }

  /** `decryptMessageChunk` on the live objects: a frame that fails leaves both untouched. */
  method DecryptMessageChunk(state: RatchetState, frame: Frame, cache: KeyCache, merkleRoot: nat,
                             resolver: Resolver, newKey: KeyId) returns (r: Outcome)
    requires state.View().Valid()
    modifies state, cache
    ensures Receipt(state.View(), cache.keys, r) ==
            Receive(old(state.View()), old(cache.keys), frame, merkleRoot, resolver, newKey)
  {
    var ctx := ResolveContext(frame, resolver, state.rootSuite);
    if ctx.None? { return DROPPED; }
    var cacheKey := CacheKeyOf(frame, resolver);
    if cacheKey in cache.keys {
      return if Opens(frame, merkleRoot, cache.keys[cacheKey]) then Opened(frame, false) else DROPPED;
    }
    var clone := new RatchetState.Clone(state);
    var derived := clone.DecryptMessage(frame.header, newKey);
    DecryptValid(old(state.View()), frame.header, newKey);
    if derived.Err? { return DROPPED; }
    var key := Combine(derived.value, ctx.value, frame.header);
    if !Opens(frame, merkleRoot, key) { return DROPPED; }
    var adopted := state.Adopt(clone);
    cache.keys := cache.keys[cacheKey := key];
    return Opened(frame, true);
  }
}
