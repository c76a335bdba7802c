/**
 The sparse post-quantum healing machine of `src/cryptography/pqHealing.ts`: the transitions as
 functions on `Machine`, the checkpoint, and what every transition keeps.

 The KEM and the root KDF are parameters (`Crypto`); key generation and encapsulation randomness
 are arguments. Transitions that the source runs asynchronously are atomic here, because its busy
 flag rejects every overlapping call.
 */
module PqHealing {
  import opened Wrappers
  import opened Bytes
  import opened PqRecords

  type Root = r: Bytes | |r| == ROOT_BYTES witness seq(32, _ => 0)

  datatype Encapsulation = Encapsulation(ciphertext: Bytes, sharedSecret: Bytes)

  datatype Crypto = Crypto(
    publicOf: Bytes -> Bytes,
    encapsulate: (Bytes, nat) -> Encapsulation,
    decapsulate: (Bytes, Bytes) -> Bytes,
    kdf: (Root, Bytes, Bytes) -> Root)

  /** Sections 7.2 and 7.3 of FIPS 203: decapsulation recovers what was encapsulated to the matching key. */
  ghost predicate KemCorrect(c: Crypto) {
    forall sk, rnd: nat ::
      c.decapsulate(c.encapsulate(c.publicOf(sk), rnd).ciphertext, sk) ==
          c.encapsulate(c.publicOf(sk), rnd).sharedSecret
  }

  datatype KeyPair = KeyPair(publicKey: Bytes, secretKey: Bytes)

  datatype Turn = Local | Remote

  datatype Phase =
    | Idle
    | OutboundOffer(dispatched: bool, offer: Offer, keyPair: KeyPair)
    | InboundOffer(offer: Offer)
    | OutboundAdvancePrepared(offer: Offer, advance: Advance, nextRoot: Root)
    | OutboundAdvanceAwaitingAck(offer: Offer, advance: Advance)
    | InboundAdvancePrepared(offer: Offer, advance: Advance, keyPair: KeyPair, nextRoot: Root)
    | InboundAdvanceAwaitingAckDispatch(advance: Advance)

  datatype Machine = Machine(
    root: Root,
    epoch: nat,
    localCounter: nat,
    remoteCounter: nat,
    nextOfferer: Turn,
    phase: Phase,
    lastInboundOffer: Option<Offer>,
    lastInboundAdvance: Option<Advance>)
  {
    predicate TrafficBlocked() { !phase.Idle? }
  }

  type Outcome = Result<Machine, Error>

  // ----- guards

  /** `requireIncrementableU64` on epoch and both counters. */
  predicate CanStartExchange(m: Machine) {
    m.epoch < MAX_U64 && m.localCounter < MAX_U64 && m.remoteCounter < MAX_U64
  }

  function RequireCounter(m: Machine, counter: nat): Option<Error> {
    if counter < m.remoteCounter then Some(Replay) else if counter > m.remoteCounter then Some(CounterGap) else None
  }

  function RequireEpoch(m: Machine, from: nat): Option<Error> {
    if from < m.epoch then Some(Replay) else if from > m.epoch then Some(EpochGap) else None
  }

  function KnownOffer(m: Machine): Option<Offer> {
    match m.phase
    case InboundOffer(o) => Some(o)
    case OutboundAdvancePrepared(o, _, _) => Some(o)
    case OutboundAdvanceAwaitingAck(o, _) => Some(o)
    case _ => m.lastInboundOffer
  }

  /** Records of one edge have equal bytes exactly when they are equal (`OfferRoundTrip`, `AdvanceRoundTrip`). */
  function RejectKnownOffer(m: Machine, o: Offer): Option<Error> {
    match KnownOffer(m)
    case None => None
    case Some(k) =>
      if o.senderCounter != k.senderCounter || o.fromEpoch != k.fromEpoch then None
      else if o == k then Some(Replay) else Some(Fork)
  }

  function KnownAdvance(m: Machine): Option<Advance> {
    match m.phase
    case InboundAdvancePrepared(_, a, _, _) => Some(a)
    case InboundAdvanceAwaitingAckDispatch(a) => Some(a)
    case _ => m.lastInboundAdvance
  }

  function RejectKnownAdvance(m: Machine, a: Advance): Option<Error> {
    match KnownAdvance(m)
    case None => None
    case Some(k) =>
      if a.senderCounter != k.senderCounter || a.fromEpoch() != k.fromEpoch() then None
      else if a == k then Some(Replay) else Some(Fork)
  }

  // ----- transitions

  function PrepareOffer(e: Edge, m: Machine, kp: KeyPair): Outcome {
    if !m.phase.Idle? then Err(InvalidState)
    else if m.nextOfferer != Local then Err(WrongTurn)
    else if !CanStartExchange(m) then Err(Overflow)
    else if |kp.publicKey| != PublicKeyBytes(e.suite) || |kp.secretKey| != SecretKeyBytes(e.suite)
        then Err(InvalidRecord)
    else Ok(m.(phase := OutboundOffer(false, Offer(m.localCounter, m.epoch, kp.publicKey), kp)))
  }

  function MarkOfferDispatched(m: Machine): Outcome {
    if m.phase.OutboundOffer? && !m.phase.dispatched then Ok(m.(phase := m.phase.(dispatched := true)))
        else Err(InvalidState)
  }

  function AbortUnsentOffer(m: Machine): Outcome {
    if m.phase.OutboundOffer? && !m.phase.dispatched then Ok(m.(phase := Idle)) else Err(InvalidState)
  }

  function AcceptOffer(m: Machine, o: Offer): Outcome {
    var known := RejectKnownOffer(m, o);
    if known.Some? then Err(known.value)
    else if !m.phase.Idle? then Err(InvalidState)
    else if m.nextOfferer != Remote then Err(WrongTurn)
    else if RequireCounter(m, o.senderCounter).Some? then Err(RequireCounter(m, o.senderCounter).value)
    else if RequireEpoch(m, o.fromEpoch).Some? then Err(RequireEpoch(m, o.fromEpoch).value)
    else if !CanStartExchange(m) then Err(Overflow)
    else Ok(m.(phase := InboundOffer(o)))
  }

  function PrepareAdvance(c: Crypto, e: Edge, m: Machine, rnd: nat): Outcome {
    if !m.phase.InboundOffer? then Err(InvalidState)
    else if m.localCounter >= MAX_U64 then Err(Overflow)
    else
      var enc := c.encapsulate(m.phase.offer.publicKey, rnd);
      if |enc.ciphertext| != CiphertextBytes(e.suite) then Err(InvalidRecord)
      else
        var a := Advance(m.localCounter, m.phase.offer, enc.ciphertext);
        Ok(m.(phase := OutboundAdvancePrepared(m.phase.offer, a, c.kdf(m.root, enc.sharedSecret, EncodeAdvance(e, a)))))
  }

  function CommitPreparedAdvance(m: Machine): Outcome {
    match m.phase
    case OutboundAdvancePrepared(o, a, nextRoot) =>
      Ok(Machine(nextRoot, a.toEpoch(), m.localCounter + 1, m.remoteCounter + 1, Local,
                 OutboundAdvanceAwaitingAck(o, a), Some(o), m.lastInboundAdvance))
    case _ => Err(InvalidState)
  }

  function AcceptAcknowledgement(m: Machine, k: Ack): Outcome {
    if !m.phase.OutboundAdvanceAwaitingAck? then Err(InvalidState)
    else if k.epoch != m.epoch || k.advanceCounter != m.phase.advance.senderCounter then Err(InvalidRecord)
    else Ok(m.(phase := Idle))
  }

  function AcceptAdvance(c: Crypto, e: Edge, m: Machine, a: Advance): Outcome {
    var known := RejectKnownAdvance(m, a);
    if known.Some? then Err(known.value)
    else if !m.phase.OutboundOffer? || !m.phase.dispatched then Err(InvalidState)
    else if RequireCounter(m, a.senderCounter).Some? then Err(RequireCounter(m, a.senderCounter).value)
    else if RequireEpoch(m, a.fromEpoch()).Some? then Err(RequireEpoch(m, a.fromEpoch()).value)
    else if a.offer != m.phase.offer then Err(Fork)
    else
      var ss := c.decapsulate(a.ciphertext, m.phase.keyPair.secretKey);
      Ok(m.(phase := InboundAdvancePrepared(m.phase.offer, a, m.phase.keyPair, c.kdf(m.root, ss, EncodeAdvance(e, a)))))
  }

  function CommitAcceptedAdvance(m: Machine): Outcome {
    match m.phase
    case InboundAdvancePrepared(_, a, _, nextRoot) =>
      Ok(Machine(nextRoot, a.toEpoch(), m.localCounter + 1, m.remoteCounter + 1, Remote,
                 InboundAdvanceAwaitingAckDispatch(a), m.lastInboundOffer, Some(a)))
    case _ => Err(InvalidState)
  }

  function AckOf(a: Advance): Ack { Ack(a.toEpoch(), a.senderCounter) }

  function MarkAckDispatched(m: Machine, k: Ack): Outcome {
    if !m.phase.InboundAdvanceAwaitingAckDispatch? then Err(InvalidState)
    else if k.epoch != m.epoch || k.advanceCounter != m.phase.advance.senderCounter then Err(InvalidRecord)
    else Ok(m.(phase := Idle))
  }

  /** The transitions, with what their callers supply. */
  datatype Op =
    | OpPrepareOffer(kp: KeyPair)
    | OpMarkOfferDispatched
    | OpAbortUnsentOffer
    | OpAcceptOffer(offer: Offer)
    | OpPrepareAdvance(rnd: nat)
    | OpCommitPreparedAdvance
    | OpAcceptAcknowledgement(ack: Ack)
    | OpAcceptAdvance(advance: Advance)
    | OpCommitAcceptedAdvance
    | OpMarkAckDispatched(ack: Ack)

  function Apply(c: Crypto, e: Edge, m: Machine, op: Op): Outcome {
    match op
    case OpPrepareOffer(kp) => PrepareOffer(e, m, kp)
    case OpMarkOfferDispatched => MarkOfferDispatched(m)
    case OpAbortUnsentOffer => AbortUnsentOffer(m)
    case OpAcceptOffer(o) => AcceptOffer(m, o)
    case OpPrepareAdvance(rnd) => PrepareAdvance(c, e, m, rnd)
    case OpCommitPreparedAdvance => CommitPreparedAdvance(m)
    case OpAcceptAcknowledgement(k) => AcceptAcknowledgement(m, k)
    case OpAcceptAdvance(a) => AcceptAdvance(c, e, m, a)
    case OpCommitAcceptedAdvance => CommitAcceptedAdvance(m)
    case OpMarkAckDispatched(k) => MarkAckDispatched(m, k)
  }

  // ----- checkpoint

  /** The phase as it is checkpointed: records as bytes, public keys and embedded offers left out. */
  datatype SnapshotPhase =
    | SIdle
    | SOutboundOffer(dispatched: bool, offer: Bytes, secretKey: Bytes)
    | SInboundOffer(offer: Bytes)
    | SOutboundAdvancePrepared(advance: Bytes, nextRoot: Bytes)
    | SOutboundAdvanceAwaitingAck(advance: Bytes)
    | SInboundAdvancePrepared(advance: Bytes, secretKey: Bytes, nextRoot: Bytes)
    | SInboundAdvanceAwaitingAckDispatch(advance: Bytes)

  datatype Snapshot = Snapshot(
    suite: ParameterSet,
    binding: Bytes,
    rootKey: Bytes,
    epoch: nat,
    localCounter: nat,
    remoteCounter: nat,
    nextOfferer: Turn,
    phase: SnapshotPhase,
    lastInboundOffer: Option<Bytes>,
    lastInboundAdvance: Option<Bytes>)

  function SnapshotOfPhase(e: Edge, p: Phase): SnapshotPhase {
    match p
    case Idle => SIdle
    case OutboundOffer(d, o, kp) => SOutboundOffer(d, EncodeOffer(e, o), kp.secretKey)
    case InboundOffer(o) => SInboundOffer(EncodeOffer(e, o))
    case OutboundAdvancePrepared(_, a, nr) => SOutboundAdvancePrepared(EncodeAdvance(e, a), nr)
    case OutboundAdvanceAwaitingAck(_, a) => SOutboundAdvanceAwaitingAck(EncodeAdvance(e, a))
    case InboundAdvancePrepared(_, a, kp, nr) => SInboundAdvancePrepared(EncodeAdvance(e, a), kp.secretKey, nr)
    case InboundAdvanceAwaitingAckDispatch(a) => SInboundAdvanceAwaitingAckDispatch(EncodeAdvance(e, a))
  }

  function TakeSnapshot(e: Edge, m: Machine): Snapshot {
    Snapshot(e.suite, e.binding, m.root, m.epoch, m.localCounter, m.remoteCounter, m.nextOfferer,
             SnapshotOfPhase(e, m.phase),
             match m.lastInboundOffer case None => None case Some(o) => Some(EncodeOffer(e, o)),
             match m.lastInboundAdvance case None => None case Some(a) => Some(EncodeAdvance(e, a)))
  }

  function DecodePhase(e: Edge, p: SnapshotPhase): Result<Phase, Error> {
    match p
    case SIdle => Ok(Idle)
    case SOutboundOffer(d, bytes, sk) =>
      (match DecodeOffer(e, bytes)
       case Err(x) => Err(x)
       case Ok(o) => if |sk| != SecretKeyBytes(e.suite) then Err(InvalidRecord)
                     else Ok(OutboundOffer(d, o, KeyPair(o.publicKey, sk))))
    case SInboundOffer(bytes) =>
      (match DecodeOffer(e, bytes) case Err(x) => Err(x) case Ok(o) => Ok(InboundOffer(o)))
    case SOutboundAdvancePrepared(bytes, nr) =>
      (match DecodeAdvance(e, bytes)
       case Err(x) => Err(x)
       case Ok(a) => if |nr| != ROOT_BYTES then Err(InvalidRecord) else Ok(OutboundAdvancePrepared(a.offer, a, nr)))
    case SOutboundAdvanceAwaitingAck(bytes) =>
      (match DecodeAdvance(e, bytes) case Err(x) => Err(x) case Ok(a) => Ok(OutboundAdvanceAwaitingAck(a.offer, a)))
    case SInboundAdvancePrepared(bytes, sk, nr) =>
      (match DecodeAdvance(e, bytes)
       case Err(x) => Err(x)
       case Ok(a) => if |sk| != SecretKeyBytes(e.suite) || |nr| != ROOT_BYTES then Err(InvalidRecord)
                     else Ok(InboundAdvancePrepared(a.offer, a, KeyPair(a.offer.publicKey, sk), nr)))
    case SInboundAdvanceAwaitingAckDispatch(bytes) =>
      (match DecodeAdvance(e, bytes) case Err(x) => Err(x) case Ok(a) => Ok(InboundAdvanceAwaitingAckDispatch(a)))
  }

  /** `validateSnapshotState`. */
  predicate ValidSnapshotState(m: Machine) {
    && (m.lastInboundOffer.Some? ==>
          m.lastInboundOffer.value.toEpoch() <= m.epoch && m.lastInboundOffer.value.senderCounter < m.remoteCounter)
    && (m.lastInboundAdvance.Some? ==>
          m.lastInboundAdvance.value.toEpoch() <= m.epoch && m.lastInboundAdvance.value.senderCounter < m.remoteCounter)
    && match m.phase
       case Idle => true
       case OutboundOffer(_, o, _) =>
         m.nextOfferer == Local && o.senderCounter == m.localCounter && o.fromEpoch == m.epoch
       case InboundOffer(o) =>
         m.nextOfferer == Remote && o.senderCounter == m.remoteCounter && o.fromEpoch == m.epoch
       case OutboundAdvancePrepared(o, a, _) =>
         m.nextOfferer == Remote && a.senderCounter == m.localCounter && o.senderCounter == m.remoteCounter &&
         a.fromEpoch() == m.epoch
       case OutboundAdvanceAwaitingAck(o, a) =>
         m.nextOfferer == Local && a.senderCounter + 1 == m.localCounter && o.senderCounter + 1 == m.remoteCounter &&
         a.toEpoch() == m.epoch && m.lastInboundOffer == Some(o)
       case InboundAdvancePrepared(o, a, _, _) =>
         m.nextOfferer == Local && a.senderCounter == m.remoteCounter && o.senderCounter == m.localCounter &&
         a.fromEpoch() == m.epoch
       case InboundAdvanceAwaitingAckDispatch(a) =>
         m.nextOfferer == Remote && a.senderCounter + 1 == m.remoteCounter
             && a.offer.senderCounter + 1 == m.localCounter &&
         a.toEpoch() == m.epoch && m.lastInboundAdvance == Some(a)
  }

  function Restore(e: Edge, s: Snapshot): Outcome {
    if s.suite != e.suite then Err(SuiteMismatch)
    else if s.binding != e.binding then Err(BindingMismatch)
    else if |s.rootKey| != ROOT_BYTES then Err(InvalidRecord)
    else if s.epoch > MAX_U64 || s.localCounter > MAX_U64 || s.remoteCounter > MAX_U64 then Err(Overflow)
    else match DecodePhase(e, s.phase)
      case Err(x) => Err(x)
      case Ok(phase) =>
        var offer := match s.lastInboundOffer case None => Ok(None) case Some(b) => Decoded(DecodeOffer(e, b));
        var advance := match s.lastInboundAdvance case None => Ok(None) case Some(b) => Decoded(DecodeAdvance(e, b));
        if offer.Err? then Err(offer.error)
        else if advance.Err? then Err(advance.error)
        else
          var m := Machine(s.rootKey, s.epoch, s.localCounter, s.remoteCounter, s.nextOfferer, phase, offer.value,
              advance.value);
          if ValidSnapshotState(m) then Ok(m) else Err(InvalidRecord)
  }

  function Decoded<T>(r: Result<T, Error>): Result<Option<T>, Error> {
    match r case Err(x) => Err(x) case Ok(v) => Ok(Some(v))
  }

  // ----- what every transition keeps

  /** The phase holds well-formed records that belong together, and secrets of the right size. */
  predicate PhaseOk(e: Edge, p: Phase) {
    match p
    case Idle => true
    case OutboundOffer(_, o, kp) =>
      ValidOffer(e, o) && kp.publicKey == o.publicKey && |kp.secretKey| == SecretKeyBytes(e.suite)
    case InboundOffer(o) => ValidOffer(e, o)
    case OutboundAdvancePrepared(o, a, _) => ValidAdvance(e, a) && a.offer == o
    case OutboundAdvanceAwaitingAck(o, a) => ValidAdvance(e, a) && a.offer == o
    case InboundAdvancePrepared(o, a, kp, _) =>
      ValidAdvance(e, a) && a.offer == o && kp.publicKey == o.publicKey && |kp.secretKey| == SecretKeyBytes(e.suite)
    case InboundAdvanceAwaitingAckDispatch(a) => ValidAdvance(e, a)
  }

  /** Between starting an exchange and committing it, one more step fits into 64 bits. */
  predicate Committing(p: Phase) {
    p.OutboundOffer? || p.InboundOffer? || p.OutboundAdvancePrepared? || p.InboundAdvancePrepared?
  }

  predicate Valid(e: Edge, m: Machine) {
    && ValidSnapshotState(m)
    && PhaseOk(e, m.phase)
    && (m.lastInboundOffer.Some? ==> ValidOffer(e, m.lastInboundOffer.value))
    && (m.lastInboundAdvance.Some? ==> ValidAdvance(e, m.lastInboundAdvance.value))
    && m.epoch <= MAX_U64 && m.localCounter <= MAX_U64 && m.remoteCounter <= MAX_U64
    && (Committing(m.phase) ==> CanStartExchange(m))
  }

  lemma ValidInitially(e: Edge, root: Root, turn: Turn)
    ensures Valid(e, Machine(root, 0, 0, 0, turn, Idle, None, None))
  {}

  /** Inbound records were decoded, so they are well formed. */
  predicate WellFormedOp(e: Edge, op: Op) {
    (op.OpAcceptOffer? ==> ValidOffer(e, op.offer)) && (op.OpAcceptAdvance? ==> ValidAdvance(e, op.advance))
  }

  predicate OfferOp(op: Op) {
    op.OpPrepareOffer? || op.OpMarkOfferDispatched? || op.OpAbortUnsentOffer? || op.OpAcceptOffer?
  }

  lemma OfferOpKeepsValid(c: Crypto, e: Edge, m: Machine, op: Op)
    requires OfferOp(op) && Valid(e, m) && WellFormedOp(e, op) && Apply(c, e, m, op).Ok?
    ensures Valid(e, Apply(c, e, m, op).value)
  {}

  predicate CommitOp(op: Op) { op.OpCommitPreparedAdvance? || op.OpCommitAcceptedAdvance? }

  lemma CommitOpKeepsValid(c: Crypto, e: Edge, m: Machine, op: Op)
    requires CommitOp(op) && Valid(e, m) && Apply(c, e, m, op).Ok?
    ensures Valid(e, Apply(c, e, m, op).value)
  {}

  lemma AnswerOpKeepsValid(c: Crypto, e: Edge, m: Machine, op: Op)
    requires !OfferOp(op) && !CommitOp(op) && Valid(e, m) && WellFormedOp(e, op) && Apply(c, e, m, op).Ok?
    ensures Valid(e, Apply(c, e, m, op).value)
  {}

  /** Every transition leads from valid machines to valid machines. */
  lemma ApplyKeepsValid(c: Crypto, e: Edge, m: Machine, op: Op)
    requires Valid(e, m) && WellFormedOp(e, op) && Apply(c, e, m, op).Ok?
    ensures Valid(e, Apply(c, e, m, op).value)
  {
    if OfferOp(op) {
      OfferOpKeepsValid(c, e, m, op);
    } else if CommitOp(op) {
      CommitOpKeepsValid(c, e, m, op);
    } else {
      AnswerOpKeepsValid(c, e, m, op);
    }
  }

  lemma OfferPhaseRoundTrip(e: Edge, p: Phase)
    requires PhaseOk(e, p) && (p.OutboundOffer? || p.InboundOffer?)
    ensures DecodePhase(e, SnapshotOfPhase(e, p)) == Ok(p)
  {
    OfferRoundTrip(e, p.offer);
  }

  lemma PhaseFromAdvance(e: Edge, p: Phase, bytes: Bytes)
    requires PhaseOk(e, p) && !p.Idle? && !p.OutboundOffer? && !p.InboundOffer?
    requires DecodeAdvance(e, bytes) == Ok(p.advance)
    ensures p.OutboundAdvancePrepared? ==> DecodePhase(e, SOutboundAdvancePrepared(bytes, p.nextRoot)) == Ok(p)
    ensures p.OutboundAdvanceAwaitingAck? ==> DecodePhase(e, SOutboundAdvanceAwaitingAck(bytes)) == Ok(p)
    ensures p.InboundAdvancePrepared? ==>
              DecodePhase(e, SInboundAdvancePrepared(bytes, p.keyPair.secretKey, p.nextRoot)) == Ok(p)
    ensures p.InboundAdvanceAwaitingAckDispatch? ==> DecodePhase(e, SInboundAdvanceAwaitingAckDispatch(bytes)) == Ok(p)
  {}

  lemma AdvancePhaseRoundTrip(e: Edge, p: Phase)
    requires PhaseOk(e, p) && !p.Idle? && !p.OutboundOffer? && !p.InboundOffer?
    ensures DecodePhase(e, SnapshotOfPhase(e, p)) == Ok(p)
  {
    AdvanceRoundTrip(e, p.advance);
    PhaseFromAdvance(e, p, EncodeAdvance(e, p.advance));
  }

  lemma PhaseRoundTrip(e: Edge, p: Phase)
    requires PhaseOk(e, p)
    ensures DecodePhase(e, SnapshotOfPhase(e, p)) == Ok(p)
  {
    match p
    case Idle =>
    case OutboundOffer(_, _, _) => OfferPhaseRoundTrip(e, p);
    case InboundOffer(_) => OfferPhaseRoundTrip(e, p);
    case _ => AdvancePhaseRoundTrip(e, p);
  }

  /** Restoring the checkpoint of a valid machine never fails and gives the same machine. */
  lemma SnapshotRoundTrip(e: Edge, m: Machine)
    requires Valid(e, m)
    ensures Restore(e, TakeSnapshot(e, m)) == Ok(m)
  {
    PhaseRoundTrip(e, m.phase);
    if m.lastInboundOffer.Some? { OfferRoundTrip(e, m.lastInboundOffer.value); }
    if m.lastInboundAdvance.Some? { AdvanceRoundTrip(e, m.lastInboundAdvance.value); }
  }

  lemma PhaseCanonical(e: Edge, s: SnapshotPhase)
    requires DecodePhase(e, s).Ok?
    ensures PhaseOk(e, DecodePhase(e, s).value) && SnapshotOfPhase(e, DecodePhase(e, s).value) == s
  {
    match s
    case SIdle =>
    case SOutboundOffer(_, b, _) => OfferCanonical(e, b);
    case SInboundOffer(b) => OfferCanonical(e, b);
    case SOutboundAdvancePrepared(b, _) => AdvanceCanonical(e, b);
    case SOutboundAdvanceAwaitingAck(b) => AdvanceCanonical(e, b);
    case SInboundAdvancePrepared(b, _, _) => AdvanceCanonical(e, b);
    case SInboundAdvanceAwaitingAckDispatch(b) => AdvanceCanonical(e, b);
  }

  /** Every checkpoint that restores is the checkpoint of the machine it restores to. */
  lemma SnapshotCanonical(e: Edge, s: Snapshot)
    requires Restore(e, s).Ok?
    ensures TakeSnapshot(e, Restore(e, s).value) == s
  {
    PhaseCanonical(e, s.phase);
    if s.lastInboundOffer.Some? { OfferCanonical(e, s.lastInboundOffer.value); }
    if s.lastInboundAdvance.Some? { AdvanceCanonical(e, s.lastInboundAdvance.value); }
  }
}
