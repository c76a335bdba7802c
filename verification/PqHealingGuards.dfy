/**
 When a healing machine accepts a record, and how it answers one it has seen before: exact conditions on
 valid machines, and replays and forks over whole sequences of transitions.
 */
module PqHealingGuards {
  import opened Wrappers
  import opened Bytes
  import opened PqRecords
  import opened PqHealing

  // ----- what is accepted

  /** An OFFER is accepted exactly by an idle machine that expects it, at its position, with room for one more. */
  lemma OfferAccepted(e: Edge, m: Machine, o: Offer)
    requires Valid(e, m)
    ensures AcceptOffer(m, o).Ok? <==>
              && m.phase.Idle? && m.nextOfferer == Remote
              && o.senderCounter == m.remoteCounter && o.fromEpoch == m.epoch
              && m.epoch < MAX_U64 && m.localCounter < MAX_U64 && m.remoteCounter < MAX_U64
  {}

  /** An ADVANCE is accepted exactly for the offer that was sent out, at its position. */
  lemma AdvanceAccepted(c: Crypto, e: Edge, m: Machine, a: Advance)
    requires Valid(e, m)
    ensures AcceptAdvance(c, e, m, a).Ok? <==>
              && m.phase.OutboundOffer? && m.phase.dispatched && a.offer == m.phase.offer
              && a.senderCounter == m.remoteCounter
  {}

  /** An ACK is accepted, and an ACK may be sent, exactly if it acknowledges the ADVANCE at hand. */
  lemma AckAccepted(e: Edge, m: Machine, k: Ack)
    requires Valid(e, m)
    ensures AcceptAcknowledgement(m, k).Ok? <==>
              m.phase.OutboundAdvanceAwaitingAck? && k == AckOf(m.phase.advance)
    ensures MarkAckDispatched(m, k).Ok? <==>
              m.phase.InboundAdvanceAwaitingAckDispatch? && k == AckOf(m.phase.advance)
    ensures forall a: Advance :: AckOf(a) == Ack(a.offer.fromEpoch + 1, a.senderCounter)
  {}

  /** An OFFER is prepared exactly by an idle machine whose turn it is, with room and keys of the right size. */
  lemma OfferPrepared(e: Edge, m: Machine, kp: KeyPair)
    ensures PrepareOffer(e, m, kp).Ok? <==>
              && m.phase.Idle? && m.nextOfferer == Local
              && m.epoch < MAX_U64 && m.localCounter < MAX_U64 && m.remoteCounter < MAX_U64
              && |kp.publicKey| == PublicKeyBytes(e.suite) && |kp.secretKey| == SecretKeyBytes(e.suite)
  {}

  /** What a machine says of an OFFER out of position, unless it repeats or contradicts the last one. */
  lemma OfferOutOfPosition(e: Edge, m: Machine, o: Offer)
    requires Valid(e, m) && m.phase.Idle? && m.nextOfferer == Remote
    requires m.lastInboundOffer.Some? ==> o.senderCounter != m.lastInboundOffer.value.senderCounter
    ensures o.senderCounter < m.remoteCounter ==> AcceptOffer(m, o) == Err(Replay)
    ensures o.senderCounter > m.remoteCounter ==> AcceptOffer(m, o) == Err(CounterGap)
    ensures o.senderCounter == m.remoteCounter && o.fromEpoch < m.epoch ==> AcceptOffer(m, o) == Err(Replay)
    ensures o.senderCounter == m.remoteCounter && o.fromEpoch > m.epoch ==> AcceptOffer(m, o) == Err(EpochGap)
  {}

  /** The same for an ADVANCE, while an offer is out. */
  lemma AdvanceOutOfPosition(c: Crypto, e: Edge, m: Machine, a: Advance)
    requires Valid(e, m) && m.phase.OutboundOffer? && m.phase.dispatched
    requires m.lastInboundAdvance.Some? ==> a.senderCounter != m.lastInboundAdvance.value.senderCounter
    ensures a.senderCounter < m.remoteCounter ==> AcceptAdvance(c, e, m, a) == Err(Replay)
    ensures a.senderCounter > m.remoteCounter ==> AcceptAdvance(c, e, m, a) == Err(CounterGap)
    ensures a.senderCounter == m.remoteCounter && a.fromEpoch() < m.epoch ==> AcceptAdvance(c, e, m, a) == Err(Replay)
    ensures a.senderCounter == m.remoteCounter && a.fromEpoch() > m.epoch ==>
              AcceptAdvance(c, e, m, a) == Err(EpochGap)
    ensures a.senderCounter == m.remoteCounter && a.fromEpoch() == m.epoch && a.offer != m.phase.offer ==>
              AcceptAdvance(c, e, m, a) == Err(Fork)
  {}

  // ----- what was accepted before

  /** The machine after a sequence of operations; one that fails leaves it as it is. */
  function ApplyAll(c: Crypto, e: Edge, m: Machine, ops: seq<Op>): Machine
    decreases |ops|
  {
    if ops == [] then m
    else match Apply(c, e, m, ops[0])
      case Err(_) => ApplyAll(c, e, m, ops[1..])
      case Ok(n) => ApplyAll(c, e, n, ops[1..])
  }

  /** No operation of the sequence offers another record of the kind. */
  predicate NoOther(ops: seq<Op>, op: Op) {
    forall k :: 0 <= k < |ops| ==>
      && (op.OpAcceptOffer? && ops[k].OpAcceptOffer? ==> ops[k] == op)
      && (op.OpAcceptAdvance? && ops[k].OpAcceptAdvance? ==> ops[k] == op)
  }

  /** What a machine has committed to is also what it remembers. */
  predicate Remembers(m: Machine) {
    && (m.phase.OutboundAdvanceAwaitingAck? ==> m.lastInboundOffer == Some(m.phase.offer))
    && (m.phase.InboundAdvanceAwaitingAckDispatch? ==> m.lastInboundAdvance == Some(m.phase.advance))
  }

  lemma {:induction false} OfferStaysKnown(c: Crypto, e: Edge, m: Machine, ops: seq<Op>, o: Offer)
    requires Remembers(m) && KnownOffer(m) == Some(o) && NoOther(ops, OpAcceptOffer(o))
    ensures KnownOffer(ApplyAll(c, e, m, ops)) == Some(o)
    decreases |ops|
  {
    if ops != [] {
      assert NoOther(ops[1..], OpAcceptOffer(o));
      match Apply(c, e, m, ops[0])
      case Err(_) => OfferStaysKnown(c, e, m, ops[1..], o);
      case Ok(n) => OfferStaysKnown(c, e, n, ops[1..], o);
    }
  }

  lemma {:induction false} AdvanceStaysKnown(c: Crypto, e: Edge, m: Machine, ops: seq<Op>, a: Advance)
    requires Remembers(m) && KnownAdvance(m) == Some(a) && NoOther(ops, OpAcceptAdvance(a))
    ensures KnownAdvance(ApplyAll(c, e, m, ops)) == Some(a)
    decreases |ops|
  {
    if ops != [] {
      assert NoOther(ops[1..], OpAcceptAdvance(a));
      match Apply(c, e, m, ops[0])
      case Err(_) => AdvanceStaysKnown(c, e, m, ops[1..], a);
      case Ok(n) => AdvanceStaysKnown(c, e, n, ops[1..], a);
    }
  }

  /**
   An accepted OFFER that comes again is a replay, and another one in its place is a fork, whatever the machine
   did in between, until another OFFER is accepted.
   */
  lemma OfferReplayOrFork(c: Crypto, e: Edge, m: Machine, o: Offer, ops: seq<Op>, other: Offer)
    requires Valid(e, m) && AcceptOffer(m, o).Ok? && NoOther(ops, OpAcceptOffer(o))
    requires other.senderCounter == o.senderCounter && other.fromEpoch == o.fromEpoch
    ensures var n := ApplyAll(c, e, AcceptOffer(m, o).value, ops);
            AcceptOffer(n, other) == Err(if other == o then Replay else Fork)
  {
    OfferStaysKnown(c, e, AcceptOffer(m, o).value, ops, o);
  }

  lemma AdvanceReplayOrFork(c: Crypto, e: Edge, m: Machine, a: Advance, ops: seq<Op>, other: Advance)
    requires Valid(e, m) && AcceptAdvance(c, e, m, a).Ok? && NoOther(ops, OpAcceptAdvance(a))
    requires other.senderCounter == a.senderCounter && other.fromEpoch() == a.fromEpoch()
    ensures var n := ApplyAll(c, e, AcceptAdvance(c, e, m, a).value, ops);
            AcceptAdvance(c, e, n, other) == Err(if other == a then Replay else Fork)
  {
    AdvanceStaysKnown(c, e, AcceptAdvance(c, e, m, a).value, ops, a);
  }

  // ----- what is restored

  /** The records of the machine belong to its edge, and its numbers fit. */
  predicate Storable(e: Edge, m: Machine) {
    && PhaseOk(e, m.phase) && ValidSnapshotState(m)
    && (m.lastInboundOffer.Some? ==> ValidOffer(e, m.lastInboundOffer.value))
    && (m.lastInboundAdvance.Some? ==> ValidAdvance(e, m.lastInboundAdvance.value))
    && m.epoch <= MAX_U64 && m.localCounter <= MAX_U64 && m.remoteCounter <= MAX_U64
  }

  lemma StorableRestores(e: Edge, m: Machine)
    requires Storable(e, m)
    ensures Restore(e, TakeSnapshot(e, m)) == Ok(m)
  {
    PhaseRoundTrip(e, m.phase);
    if m.lastInboundOffer.Some? { OfferRoundTrip(e, m.lastInboundOffer.value); }
    if m.lastInboundAdvance.Some? { AdvanceRoundTrip(e, m.lastInboundAdvance.value); }
  }

  /** A checkpoint is restored if and only if it is that of a machine in order, which is then the one restored. */
  lemma RestoreExact(e: Edge, s: Snapshot, m: Machine)
    ensures Restore(e, s) == Ok(m) <==> Storable(e, m) && s == TakeSnapshot(e, m)
  {
    if Restore(e, s) == Ok(m) {
      SnapshotCanonical(e, s);
      PhaseCanonical(e, s.phase);
      if s.lastInboundOffer.Some? { OfferCanonical(e, s.lastInboundOffer.value); }
      if s.lastInboundAdvance.Some? { AdvanceCanonical(e, s.lastInboundAdvance.value); }
    } else if Storable(e, m) && s == TakeSnapshot(e, m) {
      StorableRestores(e, m);
    }
  }
}
