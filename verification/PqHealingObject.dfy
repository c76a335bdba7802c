/** The `PqHealingMachine` object of `src/cryptography/pqHealing.ts`, proved against the transitions of `PqHealing`. */
module PqHealingObject {
  import opened Wrappers
  import opened Bytes
  import opened PqRecords
  import opened PqHealing

  /** What a call left behind: the successor, or an error and nothing changed. */
  ghost predicate Took(spec: Outcome, before: Machine, after: Machine, failure: Option<Error>) {
    match spec
    case Ok(m) => failure == None && after == m
    case Err(x) => failure == Some(x) && after == before
  }

  class PqHealingMachine {
    const edge: Edge
    const crypto: Crypto
    var root: Root
    var epoch: nat
    var localCounter: nat
    var remoteCounter: nat
    var nextOfferer: Turn
    var phase: Phase
    var lastInboundOffer: Option<Offer>
    var lastInboundAdvance: Option<Advance>

    ghost function View(): Machine
      reads this
    {
      Machine(root, epoch, localCounter, remoteCounter, nextOfferer, phase, lastInboundOffer, lastInboundAdvance)
    }

    /** The source throws when a counter does not fit into 64 bits. */
    constructor (edge: Edge, crypto: Crypto, root: Root, nextOfferer: Turn, epoch: nat, localCounter: nat,
        remoteCounter: nat)
      requires epoch <= MAX_U64 && localCounter <= MAX_U64 && remoteCounter <= MAX_U64
      ensures this.edge == edge && this.crypto == crypto
      ensures View() == Machine(root, epoch, localCounter, remoteCounter, nextOfferer, Idle, None, None)
      ensures Valid(edge, View())
    {
      this.edge, this.crypto, this.root, this.nextOfferer := edge, crypto, root, nextOfferer;
      this.epoch, this.localCounter, this.remoteCounter := epoch, localCounter, remoteCounter;
      phase, lastInboundOffer, lastInboundAdvance := Idle, None, None;
    }

    /** `clone`: restore a machine from this one's checkpoint. */
    constructor Clone(live: PqHealingMachine)
      requires Valid(live.edge, live.View())
      ensures edge == live.edge && crypto == live.crypto && View() == live.View()
    {
      edge, crypto := live.edge, live.crypto;
      ghost var m := live.View();
      SnapshotRoundTrip(live.edge, m);
      var snapshot := TakeSnapshot(live.edge, Machine(live.root, live.epoch, live.localCounter, live.remoteCounter,
        live.nextOfferer, live.phase, live.lastInboundOffer, live.lastInboundAdvance));
      var restored := Restore(live.edge, snapshot).value;
      root, epoch, localCounter, remoteCounter := restored.root, restored.epoch, restored.localCounter,
          restored.remoteCounter;
      nextOfferer, phase := restored.nextOfferer, restored.phase;
      lastInboundOffer, lastInboundAdvance := restored.lastInboundOffer, restored.lastInboundAdvance;
    }

    method PrepareOfferRecord(keyPair: KeyPair) returns (failure: Option<Error>, record: Bytes)
      modifies this
      ensures Took(PrepareOffer(edge, old(View()), keyPair), old(View()), View(), failure)
      ensures failure == None ==> phase.OutboundOffer? && record == EncodeOffer(edge, phase.offer)
    {
      record := [];
      if !phase.Idle? { return Some(InvalidState), record; }
      if nextOfferer != Local { return Some(WrongTurn), record; }
      if epoch >= MAX_U64 || localCounter >= MAX_U64 || remoteCounter >= MAX_U64 { return Some(Overflow), record; }
      if |keyPair.publicKey| != PublicKeyBytes(edge.suite) || |keyPair.secretKey| != SecretKeyBytes(edge.suite) {
        return Some(InvalidRecord), record;
      }
      var offer := Offer(localCounter, epoch, keyPair.publicKey);
      phase := OutboundOffer(false, offer, keyPair);
      return None, EncodeOffer(edge, offer);
    }

    method MarkDispatched() returns (failure: Option<Error>)
      modifies this
      ensures Took(MarkOfferDispatched(old(View())), old(View()), View(), failure)
    {
      if !phase.OutboundOffer? { return Some(InvalidState); }
      if phase.dispatched { return Some(InvalidState); }
      phase := phase.(dispatched := true);
      return None;
    }

    method Abort() returns (failure: Option<Error>)
      modifies this
      ensures Took(AbortUnsentOffer(old(View())), old(View()), View(), failure)
    {
      if !phase.OutboundOffer? || phase.dispatched { return Some(InvalidState); }
      phase := Idle;
      return None;
    }

    /** `acceptAuthenticatedOffer`, from the bytes of the record. */
    method AcceptOfferRecord(record: Bytes) returns (failure: Option<Error>)
      modifies this
      ensures match DecodeOffer(edge, record)
              case Err(x) => failure == Some(x) && View() == old(View())
              case Ok(o) => Took(AcceptOffer(old(View()), o), old(View()), View(), failure)
    {
      var decoded := DecodeOffer(edge, record);
      if decoded.Err? { return Some(decoded.error); }
      var offer := decoded.value;
      var known := lastInboundOffer;
      if phase.InboundOffer? || phase.OutboundAdvancePrepared? || phase.OutboundAdvanceAwaitingAck? {
        known := Some(phase.offer);
      }
      if known.Some? && offer.senderCounter == known.value.senderCounter && offer.fromEpoch == known.value.fromEpoch {
        return Some(if offer == known.value then Replay else Fork);
      }
      if !phase.Idle? { return Some(InvalidState); }
      if nextOfferer != Remote { return Some(WrongTurn); }
      if offer.senderCounter != remoteCounter {
        return Some(if offer.senderCounter < remoteCounter then Replay else CounterGap);
      }
      if offer.fromEpoch != epoch { return Some(if offer.fromEpoch < epoch then Replay else EpochGap); }
      if epoch >= MAX_U64 || localCounter >= MAX_U64 || remoteCounter >= MAX_U64 { return Some(Overflow); }
      phase := InboundOffer(offer);
      return None;
    }

    method PrepareAdvanceRecord(rnd: nat) returns (failure: Option<Error>, record: Bytes)
      modifies this
      ensures Took(PrepareAdvance(crypto, edge, old(View()), rnd), old(View()), View(), failure)
      ensures failure == None ==> phase.OutboundAdvancePrepared? && record == EncodeAdvance(edge, phase.advance)
    {
      record := [];
      if !phase.InboundOffer? { return Some(InvalidState), record; }
      if localCounter >= MAX_U64 { return Some(Overflow), record; }
      var enc := crypto.encapsulate(phase.offer.publicKey, rnd);
      if |enc.ciphertext| != CiphertextBytes(edge.suite) { return Some(InvalidRecord), record; }
      var advance := Advance(localCounter, phase.offer, enc.ciphertext);
      record := EncodeAdvance(edge, advance);
      phase := OutboundAdvancePrepared(phase.offer, advance, crypto.kdf(root, enc.sharedSecret, record));
      return None, record;
    }

    method CommitAdvance() returns (failure: Option<Error>, record: Bytes)
      modifies this
      ensures Took(CommitPreparedAdvance(old(View())), old(View()), View(), failure)
      ensures failure == None ==> phase.OutboundAdvanceAwaitingAck? && record == EncodeAdvance(edge, phase.advance)
    {
      if !phase.OutboundAdvancePrepared? { return Some(InvalidState), []; }
      var offer, advance := phase.offer, phase.advance;
      root := phase.nextRoot;
      epoch := advance.toEpoch();
      localCounter, remoteCounter := localCounter + 1, remoteCounter + 1;
      nextOfferer, lastInboundOffer := Local, Some(offer);
      phase := OutboundAdvanceAwaitingAck(offer, advance);
      return None, EncodeAdvance(edge, advance);
    }

    method AcceptAck(ack: Ack) returns (failure: Option<Error>)
      modifies this
      ensures Took(AcceptAcknowledgement(old(View()), ack), old(View()), View(), failure)
    {
      if !phase.OutboundAdvanceAwaitingAck? { return Some(InvalidState); }
      if ack.epoch != epoch || ack.advanceCounter != phase.advance.senderCounter { return Some(InvalidRecord); }
      phase := Idle;
      return None;
    }

    /** `acceptAuthenticatedAdvance`, from the bytes of the record. */
    method AcceptAdvanceRecord(record: Bytes) returns (failure: Option<Error>)
      modifies this
      ensures match DecodeAdvance(edge, record)
              case Err(x) => failure == Some(x) && View() == old(View())
              case Ok(a) => Took(AcceptAdvance(crypto, edge, old(View()), a), old(View()), View(), failure)
    {
      var decoded := DecodeAdvance(edge, record);
      if decoded.Err? { return Some(decoded.error); }
      var advance := decoded.value;
      var known := lastInboundAdvance;
      if phase.InboundAdvancePrepared? || phase.InboundAdvanceAwaitingAckDispatch? { known := Some(phase.advance); }
      if known.Some? && advance.senderCounter == known.value.senderCounter
          && advance.fromEpoch() == known.value.fromEpoch() {
        return Some(if advance == known.value then Replay else Fork);
      }
      if !phase.OutboundOffer? || !phase.dispatched { return Some(InvalidState); }
      if advance.senderCounter != remoteCounter {
        return Some(if advance.senderCounter < remoteCounter then Replay else CounterGap);
      }
      if advance.fromEpoch() != epoch { return Some(if advance.fromEpoch() < epoch then Replay else EpochGap); }
      if advance.offer != phase.offer { return Some(Fork); }
      AdvanceCanonical(edge, record);
      var secret := crypto.decapsulate(advance.ciphertext, phase.keyPair.secretKey);
      phase := InboundAdvancePrepared(phase.offer, advance, phase.keyPair, crypto.kdf(root, secret, record));
      return None;
    }

    method CommitAccepted() returns (failure: Option<Error>, ack: Ack)
      modifies this
      ensures Took(CommitAcceptedAdvance(old(View())), old(View()), View(), failure)
      ensures failure == None ==> phase.InboundAdvanceAwaitingAckDispatch? && ack == AckOf(phase.advance)
    {
      if !phase.InboundAdvancePrepared? { return Some(InvalidState), Ack(0, 0); }
      var advance := phase.advance;
      root := phase.nextRoot;
      epoch := advance.toEpoch();
      localCounter, remoteCounter := localCounter + 1, remoteCounter + 1;
      nextOfferer, lastInboundAdvance := Remote, Some(advance);
      phase := InboundAdvanceAwaitingAckDispatch(advance);
      return None, Ack(epoch, advance.senderCounter);
    }

    method MarkAck(ack: Ack) returns (failure: Option<Error>)
      modifies this
      ensures Took(MarkAckDispatched(old(View()), ack), old(View()), View(), failure)
    {
      if !phase.InboundAdvanceAwaitingAckDispatch? { return Some(InvalidState); }
      if ack.epoch != epoch || ack.advanceCounter != phase.advance.senderCounter { return Some(InvalidRecord); }
      phase := Idle;
      return None;
    }

    /** `adopt`: take over an authenticated successor of the same edge. */
    method Adopt(next: PqHealingMachine) returns (failure: Option<Error>)
      modifies this
      ensures failure == None <==> next != this && edge == next.edge
      ensures View() == old(if failure == None then next.View() else View())
    {
      if next == this || edge.suite != next.edge.suite || edge.binding != next.edge.binding {
        return Some(InvalidState);
      }
      root, epoch, localCounter, remoteCounter := next.root, next.epoch, next.localCounter, next.remoteCounter;
      nextOfferer, phase := next.nextOfferer, next.phase;
      lastInboundOffer, lastInboundAdvance := next.lastInboundOffer, next.lastInboundAdvance;
      return None;
    }

    /** Any transition; an inbound offer or advance goes through its record, as it does on the wire. */
    method Perform(op: Op) returns (failure: Option<Error>)
      requires WellFormedOp(edge, op)
      modifies this
      ensures Took(Apply(crypto, edge, old(View()), op), old(View()), View(), failure)
    {
      match op
      case OpPrepareOffer(kp) =>
        var r: Bytes;
        failure, r := PrepareOfferRecord(kp);
      case OpMarkOfferDispatched => failure := MarkDispatched();
      case OpAbortUnsentOffer => failure := Abort();
      case OpAcceptOffer(o) =>
        OfferRoundTrip(edge, o);
        failure := AcceptOfferRecord(EncodeOffer(edge, o));
      case OpPrepareAdvance(rnd) =>
        var r: Bytes;
        failure, r := PrepareAdvanceRecord(rnd);
      case OpCommitPreparedAdvance =>
        var r: Bytes;
        failure, r := CommitAdvance();
      case OpAcceptAcknowledgement(k) => failure := AcceptAck(k);
      case OpAcceptAdvance(a) =>
        AdvanceRoundTrip(edge, a);
        failure := AcceptAdvanceRecord(EncodeAdvance(edge, a));
      case OpCommitAcceptedAdvance =>
        var k: Ack;
        failure, k := CommitAccepted();
      case OpMarkAckDispatched(k) => failure := MarkAck(k);
    }
  }

  /**
   Clone, perform any transition on the clone, adopt it if it succeeded: the same as performing it in
   place, also when it fails.
   */
  method ApplyOnClone(live: PqHealingMachine, op: Op) returns (failure: Option<Error>)
    requires Valid(live.edge, live.View()) && WellFormedOp(live.edge, op)
    modifies live
    ensures Took(Apply(live.crypto, live.edge, old(live.View()), op), old(live.View()), live.View(), failure)
    ensures Valid(live.edge, live.View())
  {
    if Apply(live.crypto, live.edge, live.View(), op).Ok? { ApplyKeepsValid(live.crypto, live.edge, live.View(), op); }
    var clone := new PqHealingMachine.Clone(live);
    failure := clone.Perform(op);
    if failure == None { failure := live.Adopt(clone); }
  }
}
