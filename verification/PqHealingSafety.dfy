/**
 Joint safety of the two healing machines, in every run with crashes.

 The invariant relates two machine states and the records each side has dispatched. It holds of
 all four pairings of live machine and checkpoint, so a crash, which replaces one by the other,
 keeps it.
 */
module PqHealingSafety {
  import opened Wrappers
  import opened Bytes
  import opened PqRecords
  import opened PqHealing
  import opened PqHealingRun

  /** Key pairs are authentic, and a prepared root is the one its ADVANCE leads to. */
  ghost predicate SecretsOk(c: Crypto, e: Edge, m: Machine) {
    match m.phase
    case OutboundOffer(_, _, kp) => kp.publicKey == c.publicOf(kp.secretKey)
    case InboundAdvancePrepared(_, _, kp, _) => kp.publicKey == c.publicOf(kp.secretKey)
    case OutboundAdvancePrepared(o, a, nextRoot) => EncapsulatedRoot(c, e, m.root, a, nextRoot)
    case _ => true
  }

  ghost predicate EncapsulatedRoot(c: Crypto, e: Edge, root: Root, a: Advance, nextRoot: Root) {
    exists rnd: nat ::
      var enc := c.encapsulate(a.offer.publicKey, rnd);
      a.ciphertext == enc.ciphertext && nextRoot == c.kdf(root, enc.sharedSecret, EncodeAdvance(e, a))
  }

  /** A side's own dispatched records are of past exchanges, or still backed by its phase. */
  ghost predicate SentOk(e: Edge, m: Machine, sent: set<Record>) {
    forall r :: r in sent ==>
      match r
      case OfferRecord(o) =>
        ValidOffer(e, o) &&
        (o.fromEpoch < m.epoch ||
         (m.phase.OutboundOffer? && m.phase.dispatched && m.phase.offer == o) ||
         (m.phase.InboundAdvancePrepared? && m.phase.offer == o))
      case AdvanceRecord(a) =>
        ValidAdvance(e, a) && a.toEpoch() <= m.epoch &&
        (a.toEpoch() == m.epoch && m.phase.OutboundAdvanceAwaitingAck? ==> m.phase.advance == a)
      case AckRecord(k) => k.epoch <= m.epoch
  }

  /** At equal epochs, `o` owning the turn: `r` works on an offer only while `o` has it
      out, and `r` can acknowledge the ADVANCE that `o` awaits an ACK for. */
  ghost predicate LevelPhases(o: Machine, r: Machine) {
    && o.nextOfferer == Local && r.nextOfferer == Remote
    && !o.phase.InboundAdvancePrepared?
    && (r.phase.InboundOffer? || r.phase.OutboundAdvancePrepared? ==>
          o.phase.OutboundOffer? && o.phase.dispatched && o.phase.offer == r.phase.offer)
    && (o.phase.OutboundAdvanceAwaitingAck? ==> r.lastInboundAdvance == Some(o.phase.advance))
  }

  ghost predicate Level(x: Machine, y: Machine) {
    && x.epoch == y.epoch && x.root == y.root
    && x.localCounter == y.remoteCounter && x.remoteCounter == y.localCounter
    && (LevelPhases(x, y) || LevelPhases(y, x))
  }

  /** `x` answered the offer that `y` still has out, and is one epoch ahead. */
  ghost predicate Ahead(c: Crypto, e: Edge, x: Machine, y: Machine) {
    && x.epoch == y.epoch + 1 && x.nextOfferer == Local && y.nextOfferer == Local
    && x.localCounter == y.remoteCounter + 1 && x.remoteCounter == y.localCounter + 1
    && x.phase.OutboundAdvanceAwaitingAck?
    && ((y.phase.OutboundOffer? && y.phase.dispatched)
        || (y.phase.InboundAdvancePrepared? && y.phase.advance == x.phase.advance && y.phase.nextRoot == x.root))
    && y.phase.offer == x.phase.offer
    && x.root == c.kdf(y.root, c.decapsulate(x.phase.advance.ciphertext, y.phase.keyPair.secretKey),
        EncodeAdvance(e, x.phase.advance))
  }

  ghost predicate PairOk(c: Crypto, e: Edge, x: Machine, y: Machine, fromX: set<Record>, fromY: set<Record>) {
    && Valid(e, x) && Valid(e, y)
    && SecretsOk(c, e, x) && SecretsOk(c, e, y)
    && SentOk(e, x, fromX) && SentOk(e, y, fromY)
    && (Level(x, y) || Ahead(c, e, x, y) || Ahead(c, e, y, x))
  }

  // ----- one transition of one machine

  lemma AcceptedIsWellFormed(c: Crypto, e: Edge, op: Op, y: Machine, fromY: set<Record>)
    requires SentOk(e, y, fromY) && OpEnabled(c, op, fromY)
    ensures WellFormedOp(e, op)
  {
    match op
    case OpAcceptOffer(o) => assert OfferRecord(o) in fromY;
    case OpAcceptAdvance(a) => assert AdvanceRecord(a) in fromY;
    case _ =>
  }

  lemma OfferOps(c: Crypto, e: Edge, x: Machine, y: Machine, fromX: set<Record>, fromY: set<Record>, op: Op)
    requires PairOk(c, e, x, y, fromX, fromY) && OpEnabled(c, op, fromY) && Apply(c, e, x, op).Ok?
    requires op.OpPrepareOffer? || op.OpMarkOfferDispatched? || op.OpAbortUnsentOffer? || op.OpAcceptOffer?
    ensures var n := Apply(c, e, x, op).value;
            SecretsOk(c, e, n) && SentOk(e, n, fromX) && (Level(n, y) || Ahead(c, e, n, y) || Ahead(c, e, y, n))
  {
    if op.OpAcceptOffer? { assert OfferRecord(op.offer) in fromY; }
  }

  lemma PrepareAdvanceOp(c: Crypto, e: Edge, x: Machine, y: Machine, fromX: set<Record>, fromY: set<Record>, rnd: nat)
    requires PairOk(c, e, x, y, fromX, fromY) && PrepareAdvance(c, e, x, rnd).Ok?
    ensures var n := PrepareAdvance(c, e, x, rnd).value;
            SecretsOk(c, e, n) && SentOk(e, n, fromX) && (Level(n, y) || Ahead(c, e, n, y) || Ahead(c, e, y, n))
  {
    var n := PrepareAdvance(c, e, x, rnd).value;
    assert EncapsulatedRoot(c, e, n.root, n.phase.advance, n.phase.nextRoot) by {
      var enc := c.encapsulate(n.phase.advance.offer.publicKey, rnd);
      assert n.phase.advance.ciphertext == enc.ciphertext;
    }
  }

  /** Committing an answer puts `x` one epoch ahead, on the root that `y` will decapsulate. */
  lemma CommitPreparedOp(c: Crypto, e: Edge, x: Machine, y: Machine, fromX: set<Record>, fromY: set<Record>)
    requires KemCorrect(c) && PairOk(c, e, x, y, fromX, fromY) && CommitPreparedAdvance(x).Ok?
    ensures var n := CommitPreparedAdvance(x).value;
            SecretsOk(c, e, n) && SentOk(e, n, fromX) && Ahead(c, e, n, y)
  {
    var a := x.phase.advance;
    var rnd: nat :| var enc := c.encapsulate(a.offer.publicKey, rnd);
                    && a.ciphertext == enc.ciphertext
                    && x.phase.nextRoot == c.kdf(x.root, enc.sharedSecret, EncodeAdvance(e, a));
    assert Level(x, y) && LevelPhases(y, x);
    var secret := y.phase.keyPair.secretKey;
    var sealed := c.encapsulate(c.publicOf(secret), rnd);
    assert c.decapsulate(sealed.ciphertext, secret) == sealed.sharedSecret;
  }

  /** The offerer that accepts an ADVANCE prepares exactly the root of the answering side. */
  lemma AcceptAdvanceOp(c: Crypto, e: Edge, x: Machine, y: Machine, fromX: set<Record>, fromY: set<Record>, a: Advance)
    requires PairOk(c, e, x, y, fromX, fromY) && AdvanceRecord(a) in fromY && AcceptAdvance(c, e, x, a).Ok?
    ensures var n := AcceptAdvance(c, e, x, a).value;
            SecretsOk(c, e, n) && SentOk(e, n, fromX) && Ahead(c, e, y, n)
  {
    assert Ahead(c, e, y, x) && y.phase.advance == a;
  }

  lemma ClosingOps(c: Crypto, e: Edge, x: Machine, y: Machine, fromX: set<Record>, fromY: set<Record>, op: Op)
    requires PairOk(c, e, x, y, fromX, fromY) && OpEnabled(c, op, fromY) && Apply(c, e, x, op).Ok?
    requires op.OpAcceptAcknowledgement? || op.OpCommitAcceptedAdvance? || op.OpMarkAckDispatched?
    ensures var n := Apply(c, e, x, op).value;
            SecretsOk(c, e, n) && SentOk(e, n, fromX) && Level(n, y)
  {
    if op.OpAcceptAcknowledgement? { assert AckRecord(op.ack) in fromY; }
  }

  /** Whatever transition one machine takes, the pair stays consistent. */
  lemma ApplyKeepsPair(c: Crypto, e: Edge, x: Machine, y: Machine, fromX: set<Record>, fromY: set<Record>, op: Op)
    requires KemCorrect(c) && PairOk(c, e, x, y, fromX, fromY) && OpEnabled(c, op, fromY) && Apply(c, e, x, op).Ok?
    ensures PairOk(c, e, Apply(c, e, x, op).value, y, fromX, fromY)
  {
    AcceptedIsWellFormed(c, e, op, y, fromY);
    ApplyKeepsValid(c, e, x, op);
    match op
    case OpPrepareAdvance(rnd) => PrepareAdvanceOp(c, e, x, y, fromX, fromY, rnd);
    case OpCommitPreparedAdvance => CommitPreparedOp(c, e, x, y, fromX, fromY);
    case OpAcceptAdvance(a) => AcceptAdvanceOp(c, e, x, y, fromX, fromY, a);
    case OpAcceptAcknowledgement(_) => ClosingOps(c, e, x, y, fromX, fromY, op);
    case OpCommitAcceptedAdvance => ClosingOps(c, e, x, y, fromX, fromY, op);
    case OpMarkAckDispatched(_) => ClosingOps(c, e, x, y, fromX, fromY, op);
    case _ => OfferOps(c, e, x, y, fromX, fromY, op);
  }

  /** A record may leave while the machine stands behind it. */
  lemma DispatchKeepsPair(c: Crypto, e: Edge, x: Machine, y: Machine, fromX: set<Record>, fromY: set<Record>, r: Record)
    requires PairOk(c, e, x, y, fromX, fromY) && StandsBehind(x, r)
    ensures PairOk(c, e, x, y, fromX + {r}, fromY)
  {}

  lemma PairSymmetric(c: Crypto, e: Edge, x: Machine, y: Machine, fromX: set<Record>, fromY: set<Record>)
    requires PairOk(c, e, x, y, fromX, fromY)
    ensures PairOk(c, e, y, x, fromY, fromX)
  {}

  // ----- the system

  /** The machine that comes back after a crash. */
  ghost predicate SavedAs(e: Edge, side: Side, m: Machine) {
    Valid(e, m) && side.durable == TakeSnapshot(e, m)
  }

  /** `d` and `f` are the checkpointed machines; all four pairings are consistent. */
  ghost predicate Inv(c: Crypto, e: Edge, s: System, d: Machine, f: Machine) {
    && SavedAs(e, s.a, d) && SavedAs(e, s.b, f)
    && PairOk(c, e, s.a.live, s.b.live, s.a.sent, s.b.sent) && PairOk(c, e, s.a.live, f, s.a.sent, s.b.sent)
    && PairOk(c, e, d, s.b.live, s.a.sent, s.b.sent) && PairOk(c, e, d, f, s.a.sent, s.b.sent)
  }

  function Swap(s: System): System { System(s.b, s.a) }

  lemma SwapInv(c: Crypto, e: Edge, s: System, d: Machine, f: Machine)
    requires Inv(c, e, s, d, f)
    ensures Inv(c, e, Swap(s), f, d)
  {
    PairSymmetric(c, e, s.a.live, s.b.live, s.a.sent, s.b.sent);
    PairSymmetric(c, e, s.a.live, f, s.a.sent, s.b.sent);
    PairSymmetric(c, e, d, s.b.live, s.a.sent, s.b.sent);
    PairSymmetric(c, e, d, f, s.a.sent, s.b.sent);
  }

  lemma StepAKeepsInv(c: Crypto, e: Edge, s: System, d: Machine, f: Machine, ev: Event) returns (d': Machine)
    requires KemCorrect(c) && Inv(c, e, s, d, f) && Enabled(c, e, s, ev) && ev.p == A
    ensures Inv(c, e, Step(c, e, s, ev), d', f)
  {
    d' := d;
    SnapshotRoundTrip(e, d);
    match ev
    case Do(_, op) =>
      if Apply(c, e, s.a.live, op).Ok? {
        ApplyKeepsPair(c, e, s.a.live, s.b.live, s.a.sent, s.b.sent, op);
        ApplyKeepsPair(c, e, s.a.live, f, s.a.sent, s.b.sent, op);
      }
    case Persist(_) => d' := s.a.live;
    case Crash(_) =>
    case Dispatch(_, r) =>
      DispatchKeepsPair(c, e, s.a.live, s.b.live, s.a.sent, s.b.sent, r);
      DispatchKeepsPair(c, e, s.a.live, f, s.a.sent, s.b.sent, r);
      DispatchKeepsPair(c, e, d, s.b.live, s.a.sent, s.b.sent, r);
      DispatchKeepsPair(c, e, d, f, s.a.sent, s.b.sent, r);
  }

  lemma StepKeepsInv(c: Crypto, e: Edge, s: System, d: Machine, f: Machine, ev: Event)
      returns (d': Machine, f': Machine)
    requires KemCorrect(c) && Inv(c, e, s, d, f) && Enabled(c, e, s, ev)
    ensures Inv(c, e, Step(c, e, s, ev), d', f')
  {
    d', f' := d, f;
    if ev.p == A {
      d' := StepAKeepsInv(c, e, s, d, f, ev);
    } else {
      SwapInv(c, e, s, d, f);
      var mirrored := ev.(p := A);
      f' := StepAKeepsInv(c, e, Swap(s), f, d, mirrored);
      assert Step(c, e, Swap(s), mirrored) == Swap(Step(c, e, s, ev));
      SwapInv(c, e, Swap(Step(c, e, s, ev)), f', d);
    }
  }

  lemma StartInv(c: Crypto, e: Edge, o: Origin) returns (d: Machine, f: Machine)
    requires o.InRange()
    ensures Inv(c, e, Start(e, o), d, f)
  {
    d, f := Start(e, o).a.live, Start(e, o).b.live;
  }

  lemma {:induction false} RunKeepsInv(c: Crypto, e: Edge, s: System, d: Machine, f: Machine, evs: seq<Event>)
    returns (d': Machine, f': Machine)
    requires KemCorrect(c) && Inv(c, e, s, d, f) && ValidRun(c, e, s, evs)
    ensures Inv(c, e, Run(c, e, s, evs), d', f')
    decreases |evs|
  {
    if evs == [] { return d, f; }
    d', f' := StepKeepsInv(c, e, s, d, f, evs[0]);
    d', f' := RunKeepsInv(c, e, Step(c, e, s, evs[0]), d', f', evs[1..]);
  }

  lemma ReachableInv(c: Crypto, e: Edge, s: System) returns (d: Machine, f: Machine)
    requires KemCorrect(c) && Reachable(c, e, s)
    ensures Inv(c, e, s, d, f)
  {
    var o: Origin, evs: seq<Event> :|
      o.InRange() && ValidRun(c, e, Start(e, o), evs) && s == Run(c, e, Start(e, o), evs);
    d, f := StartInv(c, e, o);
    d, f := RunKeepsInv(c, e, Start(e, o), d, f, evs);
  }

  // ----- theorems

  /** `x` is the side that answered; the other side still has the answered offer out. */
  ghost predicate AnswersOffer(x: Machine, y: Machine) {
    && x.phase.OutboundAdvanceAwaitingAck?
    && ((y.phase.OutboundOffer? && y.phase.dispatched) || y.phase.InboundAdvancePrepared?)
    && x.phase.offer == y.phase.offer
  }

  ghost predicate JointlySafe(x: Machine, y: Machine) {
    && x.epoch <= MAX_U64 && x.localCounter <= MAX_U64 && x.remoteCounter <= MAX_U64
    && y.epoch <= MAX_U64 && y.localCounter <= MAX_U64 && y.remoteCounter <= MAX_U64
    && x.epoch - 1 <= y.epoch <= x.epoch + 1
    && (x.epoch == y.epoch + 1 ==> AnswersOffer(x, y))
    && (y.epoch == x.epoch + 1 ==> AnswersOffer(y, x))
    && (x.epoch == y.epoch ==>
        x.root == y.root && x.localCounter == y.remoteCounter && x.remoteCounter == y.localCounter)
    && (!x.TrafficBlocked() && !y.TrafficBlocked() ==> x.epoch == y.epoch && x.nextOfferer != y.nextOfferer)
  }

  lemma PairIsSafe(c: Crypto, e: Edge, x: Machine, y: Machine, fromX: set<Record>, fromY: set<Record>)
    requires PairOk(c, e, x, y, fromX, fromY)
    ensures JointlySafe(x, y)
  {}

  /**
   In every run over a lossy, duplicating, reordering network with arbitrary crashes: epochs differ
   by at most one with the answering side ahead, equal epochs mean equal roots and mirrored
   counters, two unblocked sides agree on epoch and have complementary turns, and nothing leaves
   64 bits. It also holds of what either side would come back as.
   */
  lemma JointSafety(c: Crypto, e: Edge, s: System)
    requires KemCorrect(c) && Reachable(c, e, s)
    ensures Restore(e, s.a.durable).Ok? && Restore(e, s.b.durable).Ok?
    ensures var d, f := Restore(e, s.a.durable).value, Restore(e, s.b.durable).value;
            JointlySafe(s.a.live, s.b.live) && JointlySafe(d, s.b.live) && JointlySafe(s.a.live, f) && JointlySafe(d, f)
  {
    var d, f := ReachableInv(c, e, s);
    SnapshotRoundTrip(e, d);
    SnapshotRoundTrip(e, f);
    PairIsSafe(c, e, s.a.live, s.b.live, s.a.sent, s.b.sent);
    PairIsSafe(c, e, s.a.live, f, s.a.sent, s.b.sent);
    PairIsSafe(c, e, d, s.b.live, s.a.sent, s.b.sent);
    PairIsSafe(c, e, d, f, s.a.sent, s.b.sent);
  }

  /** Every reachable machine passes the checkpoint validation, and its checkpoint restores to itself. */
  lemma ReachableRestores(c: Crypto, e: Edge, s: System, p: Party)
    requires KemCorrect(c) && Reachable(c, e, s)
    ensures ValidSnapshotState(s.At(p).live) && Restore(e, TakeSnapshot(e, s.At(p).live)) == Ok(s.At(p).live)
  {
    var d, f := ReachableInv(c, e, s);
    SnapshotRoundTrip(e, s.At(p).live);
  }
}
