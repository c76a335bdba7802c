/** The mutable `RatchetState` object of `src/cryptography/ratchet.ts`, proved against the functions of `Ratchet`. */
module RatchetObject {
  import opened Wrappers
  import opened Ratchet

  class RatchetState {
    var rootSuite: RootSuite
    var rootKey: RootKey
    var sendingChainKey: Option<ChainKey>
    var receivingChainKey: Option<ChainKey>
    var dhSelf: KeyId
    var dhRemotePub: Option<KeyId>
    var Ns: nat
    var Nr: nat
    var PN: nat
    var skipped: SkippedKeys

    ghost function View(): State
      reads this
    {
      State(rootSuite, rootKey, sendingChainKey, receivingChainKey, dhSelf, dhRemotePub, Ns, Nr, PN, skipped)
    }

    /** `initRatchet`; `remote` is the responder's key on the initiator's side. */
    constructor (seed: RootKey, self: KeyId, remote: Option<KeyId>, suite: RootSuite)
      ensures View() == match remote
                        case None => InitResponder(seed, self, suite)
                        case Some(r) => InitInitiator(seed, self, r, suite)
    {
      rootSuite, dhSelf, dhRemotePub, skipped := suite, self, remote, NO_SKIPPED;
      Ns, Nr, PN := 0, 0, 0;
      receivingChainKey := None;
      match remote {
        case None =>
          rootKey, sendingChainKey := seed, None;
        case Some(r) =>
          var dh := X25519(self, r);
          rootKey, sendingChainKey := RkRoot(seed, dh), Some(RkChain(seed, dh));
      }
    }

    /** `cloneRatchet`: serialize, then deserialize into independent storage. */
    constructor Clone(live: RatchetState)
      requires live.View().Valid()
      ensures View() == live.View()
    {
      rootSuite, rootKey, dhSelf, dhRemotePub := live.rootSuite, live.rootKey, live.dhSelf, live.dhRemotePub;
      sendingChainKey, receivingChainKey := live.sendingChainKey, live.receivingChainKey;
      Ns, Nr, PN := live.Ns, live.Nr, live.PN;
      skipped := Unflatten(Flatten(live.skipped));
      StoreRoundTrip(live.skipped);
    }

    method EncryptMessage() returns (r: Result<(MessageKey, Header), Failure>)
      modifies this
      ensures match Encrypt(old(View()))
              case Err(e) => r == Err(e) && View() == old(View())
              case Ok((s, key, header)) => r == Ok((key, header)) && View() == s
    {
      match sendingChainKey {
        case None => r := Err(NoSendingChain);
        case Some(ck) =>
          r := Ok((CkMessage(ck), Header(dhSelf, Ns, PN)));
          sendingChainKey := Some(CkNext(ck));
          Ns := Ns + 1;
      }
    }

    method SkipKeys(until: nat) returns (ok: bool)
      requires View().Valid()
      modifies this
      ensures match SkipMessageKeys(old(View()), until)
              case None => !ok && View() == old(View())
              case Some(s) => ok && View() == s
    {
      if Nr + MAX_SKIP < until { return false; }
      if receivingChainKey.None? { return true; }
      while Nr < until
        invariant receivingChainKey.Some? && dhRemotePub.Some?
        invariant SkipChain(View(), until) == SkipChain(old(View()), until)
      {
        var ck := receivingChainKey.value;
        receivingChainKey := Some(CkNext(ck));
        skipped := skipped.Put(MessageId(dhRemotePub.value, Nr), CkMessage(ck));
        Nr := Nr + 1;
      }
      ghost var derived := View();
      while |skipped.order| > MAX_SKIP_SESSION
        invariant View() == derived.(skipped := skipped)
        invariant skipped.Evict() == derived.skipped.Evict()
      {
        skipped := SkippedKeys(skipped.order[1..], skipped.keys - {skipped.order[0]});
      }
      return true;
    }

    method DhRatchet(remote: KeyId, newKey: KeyId)
      modifies this
      ensures View() == DhStep(old(View()), remote, newKey)
    {
      PN := Ns;
      Ns, Nr := 0, 0;
      dhRemotePub := Some(remote);
      var dh := X25519(dhSelf, remote);
      receivingChainKey := Some(RkChain(rootKey, dh));
      rootKey := RkRoot(rootKey, dh);
      dhSelf := newKey;
      dh := X25519(dhSelf, remote);
      sendingChainKey := Some(RkChain(rootKey, dh));
      rootKey := RkRoot(rootKey, dh);
    }

    /** `primeResponderRatchet`. */
    method PrimeResponder(initiatorPub: KeyId, newKey: KeyId) returns (ok: bool)
      modifies this
      ensures match Prime(old(View()), initiatorPub, newKey)
              case Err(_) => !ok && View() == old(View())
              case Ok(s) => ok && View() == s
      ensures ok <==>
                && old(sendingChainKey).None? && old(receivingChainKey).None? && old(dhRemotePub).None?
                && old(Ns) == 0 && old(Nr) == 0 && old(PN) == 0 && |old(skipped).order| == 0
    {
      if sendingChainKey.Some? || receivingChainKey.Some? || dhRemotePub.Some? ||
         Ns != 0 || Nr != 0 || PN != 0 || |skipped.order| != 0
      {
        return false;
      }
      DhRatchet(initiatorPub, newKey);
      return true;
    }

    /** `ratchetDecrypt`, including the half-updated state that a late throw leaves behind. */
    method DecryptMessage(header: Header, newKey: KeyId) returns (r: Result<MessageKey, Failure>)
      requires View().Valid()
      modifies this
      ensures Attempt(View(), r) == Decrypt(old(View()), header, newKey)
      ensures View().Valid()
    {
      var id := IdOf(header);
      if id in skipped.keys {
        r := Ok(skipped.keys[id]);
        RemoveValid(skipped, id);
        skipped := skipped.Remove(id);
        return;
      }
      if dhRemotePub != Some(header.dhPub) {
        SkipValid(View(), header.PN);
        var ok := SkipKeys(header.PN);
        if !ok { return Err(MaxSkipExceeded); }
        DhRatchet(header.dhPub, newKey);
      }
      if header.N < Nr { return Err(AlreadyConsumed); }
      SkipValid(View(), header.N);
      var ok := SkipKeys(header.N);
      if !ok { return Err(MaxSkipExceeded); }
      if receivingChainKey.None? { return Err(NoReceivingChain); }
      r := Ok(CkMessage(receivingChainKey.value));
      receivingChainKey := Some(CkNext(receivingChainKey.value));
      Nr := Nr + 1;
    }

    /** `adoptRatchet`: take over an authenticated successor. */
    method Adopt(next: RatchetState) returns (ok: bool)
      modifies this
      ensures ok <==> old(rootSuite) == old(next.rootSuite)
      ensures View() == old(if ok then next.View() else View())
    {
      if rootSuite != next.rootSuite { return false; }
      rootKey, dhSelf, dhRemotePub := next.rootKey, next.dhSelf, next.dhRemotePub;
      sendingChainKey, receivingChainKey := next.sendingChainKey, next.receivingChainKey;
      Ns, Nr, PN, skipped := next.Ns, next.Nr, next.PN, next.skipped;
      return true;
    }
  }
}
