/**
 The Double Ratchet of `src/cryptography/ratchet.ts`, over symbolic cryptography.

 A DH key pair is named by one `KeyId`; key agreement is the unordered pair of the two
 names; every KDF output is a constructor of a free datatype. `State` is the value of a
 `RatchetState` object (and also of its serialized form); the functions on `State` specify
 the methods of the class `RatchetState` in module `RatchetObject`. Randomness (the key pair
 that a DH step draws) is a parameter called `newKey`.
 */
module Ratchet {
  import opened Wrappers
  import opened Seqs

  const MAX_SKIP: nat := 512
  const MAX_SKIP_SESSION: nat := 2000

  type KeyId = nat

  datatype DhSecret = DhOut(lo: KeyId, hi: KeyId)

  function X25519(sec: KeyId, pub: KeyId): DhSecret {
    if sec <= pub then DhOut(sec, pub) else DhOut(pub, sec)
  }

  /** `KDF_RK` maps (root, dh) to (`RkRoot`, `RkChain`); `KDF_CK` maps a chain to (`CkNext`, `CkMessage`). */
  datatype RootKey = Seed(id: nat) | RkRoot(root: RootKey, dh: DhSecret)
  datatype ChainKey = RkChain(root: RootKey, dh: DhSecret) | CkNext(chain: ChainKey)
  datatype MessageKey = CkMessage(chain: ChainKey)

  datatype RootSuite = MlKem512 | MlKem768 | MlKem1024

  datatype Header = Header(dhPub: KeyId, N: nat, PN: nat)

  /** A message is identified on the wire by the sender's DH key and the index in its chain. */
  datatype MessageId = MessageId(dhPub: KeyId, n: nat)

  function IdOf(h: Header): MessageId { MessageId(h.dhPub, h.N) }

  datatype Failure = MaxSkipExceeded | AlreadyConsumed | NoReceivingChain | NoSendingChain | NotPristine | SuiteMismatch

  // ----- the skipped-key store: a JavaScript Map, which keeps insertion order

  datatype SkippedKeys = SkippedKeys(order: seq<MessageId>, keys: map<MessageId, MessageKey>) {
    ghost predicate Valid() {
      && NoDup(order)
      && (forall id :: id in order <==> id in keys)
    }

    /** `Map.set`: an existing key keeps its place. */
    function Put(id: MessageId, key: MessageKey): SkippedKeys {
      SkippedKeys(if id in keys then order else order + [id], keys[id := key])
    }

    /** `Map.delete`. */
    function Remove(id: MessageId): SkippedKeys {
      SkippedKeys(Without(order, id), keys - {id})
    }

    /** Delete the oldest entries until at most `MAX_SKIP_SESSION` are left. */
    function Evict(): SkippedKeys
      decreases |order|
    {
      if |order| <= MAX_SKIP_SESSION then this else SkippedKeys(order[1..], keys - {order[0]}).Evict()
    }
  }

  lemma PutValid(sk: SkippedKeys, id: MessageId, key: MessageKey)
    requires sk.Valid()
    ensures sk.Put(id, key).Valid()
  {}

  lemma RemoveValid(sk: SkippedKeys, id: MessageId)
    requires sk.Valid()
    ensures sk.Remove(id).Valid()
    ensures |sk.Remove(id).order| <= |sk.order|
  {
    WithoutMembers(sk.order, id);
  }

  /** Eviction is oldest-first: what survives is a suffix of the insertion order, with its values. */
  lemma {:induction false} EvictOldestFirst(sk: SkippedKeys)
    requires sk.Valid()
    ensures sk.Evict().Valid() && |sk.Evict().order| <= MAX_SKIP_SESSION
    ensures |sk.order| <= MAX_SKIP_SESSION ==> sk.Evict() == sk
    ensures |sk.order| > MAX_SKIP_SESSION ==> sk.Evict().order == sk.order[|sk.order| - MAX_SKIP_SESSION..]
    ensures forall id :: id in sk.Evict().keys ==> id in sk.keys && sk.Evict().keys[id] == sk.keys[id]
    decreases |sk.order|
  {
    if |sk.order| > MAX_SKIP_SESSION {
      var next := SkippedKeys(sk.order[1..], sk.keys - {sk.order[0]});
      assert next.Valid() by {
        forall id ensures id in next.order <==> id in next.keys {
          assert id in sk.order <==> id in sk.keys;
          assert sk.order == [sk.order[0]] + sk.order[1..];
        }
      }
      EvictOldestFirst(next);
    }
  }

  // ----- ratchet state

  datatype State = State(
    rootSuite: RootSuite,
    rootKey: RootKey,
    sendingChainKey: Option<ChainKey>,
    receivingChainKey: Option<ChainKey>,
    dhSelf: KeyId,
    dhRemotePub: Option<KeyId>,
    Ns: nat,
    Nr: nat,
    PN: nat,
    skipped: SkippedKeys)
  {
    /** An open receiving chain has a known remote key. */
    ghost predicate Valid() {
      skipped.Valid() && (receivingChainKey.Some? ==> dhRemotePub.Some?)
    }
  }

  const NO_SKIPPED := SkippedKeys([], map[])

  function InitResponder(seed: RootKey, self: KeyId, suite: RootSuite): State {
    State(suite, seed, None, None, self, None, 0, 0, 0, NO_SKIPPED)
  }

  function InitInitiator(seed: RootKey, self: KeyId, remote: KeyId, suite: RootSuite): State {
    var dh := X25519(self, remote);
    State(suite, RkRoot(seed, dh), Some(RkChain(seed, dh)), None, self, Some(remote), 0, 0, 0, NO_SKIPPED)
  }

  function Encrypt(st: State): Result<(State, MessageKey, Header), Failure> {
    match st.sendingChainKey
    case None => Err(NoSendingChain)
    case Some(ck) =>
      Ok((st.(sendingChainKey := Some(CkNext(ck)), Ns := st.Ns + 1), CkMessage(ck), Header(st.dhSelf, st.Ns, st.PN)))
  }

  /** One turn of the derivation loop. */
  function SkipOne(st: State): State
    requires st.receivingChainKey.Some? && st.dhRemotePub.Some?
  {
    var ck := st.receivingChainKey.value;
    st.(receivingChainKey := Some(CkNext(ck)),
        skipped := st.skipped.Put(MessageId(st.dhRemotePub.value, st.Nr), CkMessage(ck)),
        Nr := st.Nr + 1)
  }

  /** The derivation loop of `skipMessageKeys`. */
  function SkipChain(st: State, until: nat): State
    requires st.receivingChainKey.Some? && st.dhRemotePub.Some?
    decreases until - st.Nr
  {
    if st.Nr >= until then st
    else SkipChain(SkipOne(st), until)
  }

  function SkipMessageKeys(st: State, until: nat): Option<State>
    requires st.receivingChainKey.Some? ==> st.dhRemotePub.Some?
  {
    if st.Nr + MAX_SKIP < until then None
    else if st.receivingChainKey.None? then Some(st)
    else
      var s := SkipChain(st, until);
      Some(s.(skipped := s.skipped.Evict()))
  }

  function DhStep(st: State, remote: KeyId, newKey: KeyId): State {
    var dhIn := X25519(st.dhSelf, remote);
    var root := RkRoot(st.rootKey, dhIn);
    var dhOut := X25519(newKey, remote);
    st.(PN := st.Ns, Ns := 0, Nr := 0,
        dhRemotePub := Some(remote), receivingChainKey := Some(RkChain(st.rootKey, dhIn)),
        dhSelf := newKey, rootKey := RkRoot(root, dhOut), sendingChainKey := Some(RkChain(root, dhOut)))
  }

  predicate Pristine(st: State) {
    && st.sendingChainKey.None? && st.receivingChainKey.None? && st.dhRemotePub.None?
    && st.Ns == 0 && st.Nr == 0 && st.PN == 0 && |st.skipped.order| == 0
  }

  function Prime(st: State, initiatorPub: KeyId, newKey: KeyId): Result<State, Failure> {
    if Pristine(st) then Ok(DhStep(st, initiatorPub, newKey)) else Err(NotPristine)
  }

  /** A decryption leaves a state behind whether or not it throws. */
  datatype Attempt = Attempt(state: State, key: Result<MessageKey, Failure>)

  /** Case (c) of `ratchetDecrypt`: the header belongs to the current receiving chain. */
  function Forward(st: State, n: nat): Attempt
    requires st.receivingChainKey.Some? ==> st.dhRemotePub.Some?
  {
    if n < st.Nr then Attempt(st, Err(AlreadyConsumed))
    else match SkipMessageKeys(st, n)
      case None => Attempt(st, Err(MaxSkipExceeded))
      case Some(s) =>
        match s.receivingChainKey
        case None => Attempt(s, Err(NoReceivingChain))
        case Some(ck) => Attempt(s.(receivingChainKey := Some(CkNext(ck)), Nr := s.Nr + 1), Ok(CkMessage(ck)))
  }

  function Decrypt(st: State, h: Header, newKey: KeyId): Attempt
    requires st.receivingChainKey.Some? ==> st.dhRemotePub.Some?
  {
    if IdOf(h) in st.skipped.keys then
      Attempt(st.(skipped := st.skipped.Remove(IdOf(h))), Ok(st.skipped.keys[IdOf(h)]))
    else if st.dhRemotePub == Some(h.dhPub) then Forward(st, h.N)
    else match SkipMessageKeys(st, h.PN)
      case None => Attempt(st, Err(MaxSkipExceeded))
      case Some(s) => Forward(DhStep(s, h.dhPub, newKey), h.N)
  }

  // ----- serialization: the store is flattened to an array in insertion order

  datatype SkippedEntry = SkippedEntry(dhPub: KeyId, n: nat, messageKey: MessageKey)

  function Flatten(sk: SkippedKeys): (es: seq<SkippedEntry>)
    requires forall i :: 0 <= i < |sk.order| ==> sk.order[i] in sk.keys
  {
    seq(|sk.order|, i requires 0 <= i < |sk.order| =>
      SkippedEntry(sk.order[i].dhPub, sk.order[i].n, sk.keys[sk.order[i]]))
  }

  function Unflatten(es: seq<SkippedEntry>): SkippedKeys {
    if es == [] then NO_SKIPPED
    else
      var e := es[|es| - 1];
      Unflatten(es[..|es| - 1]).Put(MessageId(e.dhPub, e.n), e.messageKey)
  }

  /** The store without its newest entry. */
  ghost function Older(sk: SkippedKeys): SkippedKeys
    requires |sk.order| > 0
  {
    SkippedKeys(sk.order[..|sk.order| - 1], sk.keys - {sk.order[|sk.order| - 1]})
  }

  lemma OlderValid(sk: SkippedKeys)
    requires sk.Valid() && |sk.order| > 0
    ensures Older(sk).Valid() && sk.order[|sk.order| - 1] !in Older(sk).order
  {
    var last := |sk.order| - 1;
    assert sk.order == sk.order[..last] + [sk.order[last]];
  }

  lemma DropNewest(sk: SkippedKeys)
    requires sk.Valid() && |sk.order| > 0
    ensures var last := |sk.order| - 1;
            && Older(sk).Valid() && Older(sk).Put(sk.order[last], sk.keys[sk.order[last]]) == sk
            && Flatten(sk)[..last] == Flatten(Older(sk))
  {
    var last := |sk.order| - 1;
    OlderValid(sk);
    assert sk.order == sk.order[..last] + [sk.order[last]];
    assert sk.order[last] !in Older(sk).keys;
  }

  /** Deserializing a serialized store gives back the same entries in the same order. */
  lemma {:induction false} StoreRoundTrip(sk: SkippedKeys)
    requires sk.Valid()
    ensures Unflatten(Flatten(sk)) == sk
    decreases |sk.order|
  {
    if |sk.order| == 0 {
      assert sk.keys == map[];
    } else {
      DropNewest(sk);
      StoreRoundTrip(Older(sk));
    }
  }

  // ----- closed forms

  /** The chain key `n` steps along a chain. */
  function ChainAt(head: ChainKey, n: nat): ChainKey {
    if n == 0 then head else CkNext(ChainAt(head, n - 1))
  }

  /** Keys at equal distance from two chain heads are equal only if the heads are. */
  lemma {:induction false} ChainAtInjective(c: ChainKey, d: ChainKey, n: nat)
    requires ChainAt(c, n) == ChainAt(d, n)
    ensures c == d
  {
    if n != 0 { ChainAtInjective(c, d, n - 1); }
  }

  /** The keys of indices `[from, nr)` of the chain headed by `head`, sent under `x`, joined the store. */
  ghost predicate StoreExtended(before: map<MessageId, MessageKey>, keys: map<MessageId, MessageKey>,
                                x: KeyId, head: ChainKey, from: nat, nr: nat)
  {
    && (forall id: MessageId :: id in keys <==> id in before || (id.dhPub == x && from <= id.n < nr))
    && (forall id: MessageId :: id in keys && id.dhPub == x && from <= id.n < nr ==>
        keys[id] == CkMessage(ChainAt(head, id.n)))
    && (forall id: MessageId :: id in before && !(id.dhPub == x && from <= id.n < nr) ==> keys[id] == before[id])
  }

  ghost predicate SkippedUntil(st: State, head: ChainKey, s: State)
    requires st.dhRemotePub.Some?
  {
    && st.Nr <= s.Nr
    && s == st.(receivingChainKey := Some(ChainAt(head, s.Nr)), skipped := s.skipped, Nr := s.Nr)
    && s.skipped.Valid()
    && |s.skipped.order| <= |st.skipped.order| + (s.Nr - st.Nr)
    && StoreExtended(st.skipped.keys, s.skipped.keys, st.dhRemotePub.value, head, st.Nr, s.Nr)
  }

  lemma SkipOneExtends(st: State, head: ChainKey, s: State)
    requires st.Valid() && st.receivingChainKey == Some(ChainAt(head, st.Nr))
    requires SkippedUntil(SkipOne(st), head, s)
    ensures SkippedUntil(st, head, s)
  {
    StoreOneMore(st.skipped.keys, s.skipped.keys, st.dhRemotePub.value, head, st.Nr, s.Nr);
  }

  lemma StoreOneMore(before: map<MessageId, MessageKey>, keys: map<MessageId, MessageKey>, x: KeyId, head: ChainKey,
      n: nat, nr: nat)
    requires n < nr
    requires StoreExtended(before[MessageId(x, n) := CkMessage(ChainAt(head, n))], keys, x, head, n + 1, nr)
    ensures StoreExtended(before, keys, x, head, n, nr)
  {}

  /** What the derivation loop does, in closed form. */
  lemma {:induction false} SkipChainClosedForm(st: State, until: nat, head: ChainKey)
    requires st.Valid() && st.receivingChainKey == Some(ChainAt(head, st.Nr))
    ensures SkippedUntil(st, head, SkipChain(st, until))
    ensures SkipChain(st, until).Nr == if st.Nr < until then until else st.Nr
    decreases until - st.Nr
  {
    if st.Nr < until {
      PutValid(st.skipped, MessageId(st.dhRemotePub.value, st.Nr), CkMessage(st.receivingChainKey.value));
      SkipChainClosedForm(SkipOne(st), until, head);
      SkipOneExtends(st, head, SkipChain(st, until));
    }
  }

  /** Skipping keeps the store well formed and bounded, whatever chain key the state holds. */
  lemma {:induction false} SkipChainValid(st: State, until: nat)
    requires st.Valid() && st.receivingChainKey.Some?
    ensures SkipChain(st, until).Valid() && SkipChain(st, until).receivingChainKey.Some?
    ensures |SkipChain(st, until).skipped.order| <= |st.skipped.order| + if st.Nr < until then until - st.Nr else 0
    ensures SkipChain(st, until).rootSuite == st.rootSuite
    decreases until - st.Nr
  {
    if st.Nr < until {
      PutValid(st.skipped, MessageId(st.dhRemotePub.value, st.Nr), CkMessage(st.receivingChainKey.value));
      SkipChainValid(SkipOne(st), until);
    }
  }

  lemma SkipValid(st: State, until: nat)
    requires st.Valid()
    ensures var r := SkipMessageKeys(st, until);
            r.Some? ==> r.value.Valid() && r.value.rootSuite == st.rootSuite &&
                        (|st.skipped.order| <= MAX_SKIP_SESSION ==> |r.value.skipped.order| <= MAX_SKIP_SESSION)
  {
    if st.receivingChainKey.Some? {
      SkipChainValid(st, until);
      EvictOldestFirst(SkipChain(st, until).skipped);
    }
  }

  /**
   Whatever header arrives, decryption keeps the state well formed and its store within
   `MAX_SKIP_SESSION` entries, also when it fails half-way.
   */
  lemma DecryptValid(st: State, h: Header, newKey: KeyId)
    requires st.Valid()
    ensures var s := Decrypt(st, h, newKey).state;
            && s.Valid() && s.rootSuite == st.rootSuite
            && (|st.skipped.order| <= MAX_SKIP_SESSION ==> |s.skipped.order| <= MAX_SKIP_SESSION)
  {
    if IdOf(h) in st.skipped.keys {
      RemoveValid(st.skipped, IdOf(h));
    } else if st.dhRemotePub == Some(h.dhPub) {
      SkipValid(st, h.N);
    } else {
      SkipValid(st, h.PN);
      var r := SkipMessageKeys(st, h.PN);
      if r.Some? { SkipValid(DhStep(r.value, h.dhPub, newKey), h.N); }
    }
  }

  /** Would this skip push the store over its session limit, so that old keys are lost? */
  predicate SkipOverflows(st: State, until: nat)
    requires st.receivingChainKey.Some? ==> st.dhRemotePub.Some?
  {
    st.receivingChainKey.Some? && |SkipChain(st, until).skipped.order| > MAX_SKIP_SESSION
  }

  /** Does decrypting `h` evict a stored key? */
  predicate Evicts(st: State, h: Header, newKey: KeyId)
    requires st.receivingChainKey.Some? ==> st.dhRemotePub.Some?
  {
    IdOf(h) !in st.skipped.keys &&
    if st.dhRemotePub == Some(h.dhPub) then SkipOverflows(st, h.N)
    else
      || SkipOverflows(st, h.PN)
      || match SkipMessageKeys(st, h.PN)
         case None => false
         case Some(s) => SkipOverflows(DhStep(s, h.dhPub, newKey), h.N)
  }

  /** A message of the current receiving chain, in closed form. */
  lemma ForwardClosedForm(st: State, n: nat, head: ChainKey)
    requires st.Valid() && st.receivingChainKey == Some(ChainAt(head, st.Nr))
    ensures Forward(st, n).key.Ok? <==> st.Nr <= n <= st.Nr + MAX_SKIP
    ensures st.Nr <= n <= st.Nr + MAX_SKIP ==>
              var s := SkipChain(st, n);
              && SkippedUntil(st, head, s) && s.Nr == n
              && Forward(st, n) == Attempt(s.(skipped := s.skipped.Evict(),
                                              receivingChainKey := Some(ChainAt(head, n + 1)), Nr := n + 1),
                                           Ok(CkMessage(ChainAt(head, n))))
  {
    SkipChainClosedForm(st, n, head);
  }

  // ----- anti-denial-of-service bound

  lemma {:induction false} SkipChainNewKeys(st: State, until: nat)
    requires st.receivingChainKey.Some? && st.dhRemotePub.Some?
    ensures |SkipChain(st, until).skipped.keys.Keys - st.skipped.keys.Keys| <=
            if st.Nr < until then until - st.Nr else 0
    decreases until - st.Nr
  {
    if st.Nr < until {
      var next := SkipOne(st);
      var id := MessageId(st.dhRemotePub.value, st.Nr);
      SkipChainNewKeys(next, until);
      var more := SkipChain(st, until).skipped.keys.Keys;
      assert more - st.skipped.keys.Keys <= (more - next.skipped.keys.Keys) + {id};
      SubsetSize(more - st.skipped.keys.Keys, (more - next.skipped.keys.Keys) + {id});
    }
  }

  lemma SkipNewKeys(st: State, until: nat)
    requires st.Valid() && SkipMessageKeys(st, until).Some?
    ensures |SkipMessageKeys(st, until).value.skipped.keys.Keys - st.skipped.keys.Keys| <= MAX_SKIP
  {
    if st.receivingChainKey.Some? {
      var s := SkipChain(st, until);
      SkipChainNewKeys(st, until);
      SkipChainValid(st, until);
      EvictOldestFirst(s.skipped);
      SubsetSize(s.skipped.Evict().keys.Keys - st.skipped.keys.Keys, s.skipped.keys.Keys - st.skipped.keys.Keys);
    }
  }

  lemma ForwardNewKeys(st: State, n: nat)
    requires st.Valid()
    ensures |Forward(st, n).state.skipped.keys.Keys - st.skipped.keys.Keys| <= MAX_SKIP
  {
    var r := SkipMessageKeys(st, n);
    if n >= st.Nr && r.Some? {
      SkipNewKeys(st, n);
      assert Forward(st, n).state.skipped == r.value.skipped;
    } else {
      assert Forward(st, n).state == st;
      assert st.skipped.keys.Keys - st.skipped.keys.Keys == {};
    }
  }

  lemma DifferenceSize<T>(a: set<T>, b: set<T>, c: set<T>)
    ensures |c - a| <= |c - b| + |b - a|
  {
    SubsetSize(c - a, (c - b) + (b - a));
  }

  /** Whatever the header claims, one decryption stores at most `2 * MAX_SKIP` new keys. */
  lemma DecryptSkipBound(st: State, h: Header, newKey: KeyId)
    requires st.Valid()
    ensures |Decrypt(st, h, newKey).state.skipped.keys.Keys - st.skipped.keys.Keys| <= 2 * MAX_SKIP
  {
    var had, r := st.skipped.keys.Keys, SkipMessageKeys(st, h.PN);
    if IdOf(h) in had {
      assert Decrypt(st, h, newKey).state.skipped.keys.Keys - had == {};
    } else if st.dhRemotePub == Some(h.dhPub) {
      ForwardNewKeys(st, h.N);
    } else if r.Some? {
      SkipNewKeys(st, h.PN);
      SkipValid(st, h.PN);
      var d := DhStep(r.value, h.dhPub, newKey);
      ForwardNewKeys(d, h.N);
      DifferenceSize(had, d.skipped.keys.Keys, Forward(d, h.N).state.skipped.keys.Keys);
    }
  }
}
