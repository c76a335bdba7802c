/**
 Healing happens: from every reachable system with both sides unblocked, an exchange over the network
 leads both sides to the next epoch and to one root that depends on a fresh encapsulated secret.
 */
module PqHealingExchange {
  import opened Wrappers
  import opened Bytes
  import opened PqRecords
  import opened PqHealing
  import opened PqHealingRun
  import opened PqHealingSafety
  import opened PqHealingProgress

  /** Some events lead from `s` to `t`. */
  ghost predicate Leads(c: Crypto, e: Edge, s: System, t: System) {
    exists evs :: ValidRun(c, e, s, evs) && Run(c, e, s, evs) == t
  }

  lemma LeadsOn(c: Crypto, e: Edge, s: System, t: System, u: System)
    requires Leads(c, e, s, t) && Leads(c, e, t, u)
    ensures Leads(c, e, s, u)
  {
    var evs :| ValidRun(c, e, s, evs) && Run(c, e, s, evs) == t;
    var more :| ValidRun(c, e, t, more) && Run(c, e, t, more) == u;
    RunAppend(c, e, s, evs, more);
  }

  /** One transition of `p`. */
  lemma Moves(c: Crypto, e: Edge, s: System, p: Party, op: Op)
    requires OpEnabled(c, op, s.At(Other(p)).sent) && Apply(c, e, s.At(p).live, op).Ok?
    ensures Leads(c, e, s, s.With(p, s.At(p).(live := Apply(c, e, s.At(p).live, op).value)))
  {
    OneEvent(c, e, s, Do(p, op));
  }

  /** Side `p` saves and then dispatches a record that it stands behind. */
  lemma Publishes(c: Crypto, e: Edge, s: System, p: Party, r: Record)
    requires Valid(e, s.At(p).live) && StandsBehind(s.At(p).live, r)
    ensures var side := s.At(p);
            Leads(c, e, s, s.With(p, Side(side.live, TakeSnapshot(e, side.live), side.sent + {r})))
  {
    var side := s.At(p);
    var t := s.With(p, side.(durable := TakeSnapshot(e, side.live)));
    SnapshotRoundTrip(e, side.live);
    OneEvent(c, e, s, Persist(p));
    OneEvent(c, e, t, Dispatch(p, r));
    LeadsOn(c, e, s, t, Step(c, e, t, Dispatch(p, r)));
  }

  /** The offer of an offerer `x` with key `publicKey`, and the answer to it with randomness `rnd`. */
  ghost function OfferBy(x: Machine, publicKey: Bytes): Offer { Offer(x.localCounter, x.epoch, publicKey) }

  ghost function AnswerTo(c: Crypto, x: Machine, publicKey: Bytes, rnd: nat): Advance {
    Advance(x.remoteCounter, OfferBy(x, publicKey), c.encapsulate(publicKey, rnd).ciphertext)
  }

  /** The root that the exchange agrees on. */
  ghost function HealedRoot(c: Crypto, e: Edge, x: Machine, publicKey: Bytes, rnd: nat): Root {
    c.kdf(x.root, c.encapsulate(publicKey, rnd).sharedSecret, EncodeAdvance(e, AnswerTo(c, x, publicKey, rnd)))
  }

  /** The key pair and the encapsulation that the two sides draw. */
  ghost predicate Drawn(c: Crypto, e: Edge, kp: KeyPair, rnd: nat) {
    && kp.publicKey == c.publicOf(kp.secretKey)
    && |kp.publicKey| == PublicKeyBytes(e.suite) && |kp.secretKey| == SecretKeyBytes(e.suite)
    && |c.encapsulate(kp.publicKey, rnd).ciphertext| == CiphertextBytes(e.suite)
  }

  /** `p` owns the turn, and nothing is under way. */
  ghost predicate MayOffer(e: Edge, s: System, p: Party) {
    var x, y := s.At(p).live, s.At(Other(p)).live;
    && Valid(e, x) && Valid(e, y) && x.phase.Idle? && y.phase.Idle?
    && x.nextOfferer == Local && y.nextOfferer == Remote
    && x.epoch == y.epoch && x.root == y.root
    && x.localCounter == y.remoteCounter && x.remoteCounter == y.localCounter
    && x.epoch < MAX_U64 && x.localCounter < MAX_U64 && x.remoteCounter < MAX_U64
  }

  ghost function Offering(x: Machine, kp: KeyPair): Machine {
    x.(phase := OutboundOffer(true, OfferBy(x, kp.publicKey), kp))
  }

  /** The machine of the offerer, and that of the answering side, once they are in the next epoch. */
  ghost function Offered(c: Crypto, e: Edge, x: Machine, kp: KeyPair, rnd: nat): Machine {
    Machine(HealedRoot(c, e, x, kp.publicKey, rnd), x.epoch + 1, x.localCounter + 1, x.remoteCounter + 1, Remote,
            Idle, x.lastInboundOffer, Some(AnswerTo(c, x, kp.publicKey, rnd)))
  }

  ghost function Answered(c: Crypto, e: Edge, x: Machine, y: Machine, kp: KeyPair, rnd: nat): Machine {
    Machine(HealedRoot(c, e, x, kp.publicKey, rnd), x.epoch + 1, y.localCounter + 1, y.remoteCounter + 1, Local,
            OutboundAdvanceAwaitingAck(OfferBy(x, kp.publicKey), AnswerTo(c, x, kp.publicKey, rnd)),
            Some(OfferBy(x, kp.publicKey)), y.lastInboundAdvance)
  }

  /** Side `p` has its offer out. */
  lemma OfferLeg(c: Crypto, e: Edge, s: System, p: Party, kp: KeyPair, rnd: nat)
    requires MayOffer(e, s, p) && Drawn(c, e, kp, rnd)
    ensures var m := Offering(s.At(p).live, kp);
            && Valid(e, m)
            && Leads(c, e, s, s.With(p, Side(m, TakeSnapshot(e, m),
                                             s.At(p).sent + {OfferRecord(OfferBy(s.At(p).live, kp.publicKey))})))
  {
    var x := s.At(p).live;
    var m := Apply(c, e, x, OpPrepareOffer(kp)).value;
    ApplyKeepsValid(c, e, x, OpPrepareOffer(kp));
    ApplyKeepsValid(c, e, m, OpMarkOfferDispatched);
    var t := s.With(p, s.At(p).(live := m));
    var u := s.With(p, s.At(p).(live := Offering(x, kp)));
    Moves(c, e, s, p, OpPrepareOffer(kp));
    Moves(c, e, t, p, OpMarkOfferDispatched);
    LeadsOn(c, e, s, t, u);
    Publishes(c, e, u, p, OfferRecord(OfferBy(x, kp.publicKey)));
    LeadsOn(c, e, s, u, u.With(p, Side(Offering(x, kp), TakeSnapshot(e, Offering(x, kp)),
                                       s.At(p).sent + {OfferRecord(OfferBy(x, kp.publicKey))})));
  }

  /** The idle machine of the peer accepts the offer. */
  lemma OfferFits(e: Edge, x: Machine, y: Machine, kp: KeyPair)
    requires Valid(e, y) && y.phase.Idle? && y.nextOfferer == Remote
    requires x.epoch == y.epoch < MAX_U64 && x.localCounter == y.remoteCounter < MAX_U64 && y.localCounter < MAX_U64
    requires |kp.publicKey| == PublicKeyBytes(e.suite)
    ensures AcceptOffer(y, OfferBy(x, kp.publicKey)) == Ok(y.(phase := InboundOffer(OfferBy(x, kp.publicKey))))
    ensures Valid(e, y.(phase := InboundOffer(OfferBy(x, kp.publicKey))))
  {}

  /** Accepting, answering and committing on the machine of the answering side. */
  lemma AnswerSteps(c: Crypto, e: Edge, x: Machine, y: Machine, kp: KeyPair, rnd: nat)
    requires Valid(e, y) && y.phase.Idle? && y.nextOfferer == Remote && Drawn(c, e, kp, rnd)
    requires x.root == y.root && x.epoch == y.epoch < MAX_U64
    requires x.localCounter == y.remoteCounter < MAX_U64 && x.remoteCounter == y.localCounter < MAX_U64
    ensures var o := OfferBy(x, kp.publicKey);
            var y1 := y.(phase := InboundOffer(o));
            var y2 := y.(phase := OutboundAdvancePrepared(o, AnswerTo(c, x, kp.publicKey, rnd),
                                                          HealedRoot(c, e, x, kp.publicKey, rnd)));
            && Apply(c, e, y, OpAcceptOffer(o)) == Ok(y1)
            && Apply(c, e, y1, OpPrepareAdvance(rnd)) == Ok(y2)
            && Apply(c, e, y2, OpCommitPreparedAdvance) == Ok(Answered(c, e, x, y, kp, rnd))
            && Valid(e, Answered(c, e, x, y, kp, rnd))
  {
    OfferFits(e, x, y, kp);
    var y1 := y.(phase := InboundOffer(OfferBy(x, kp.publicKey)));
    ApplyKeepsValid(c, e, y1, OpPrepareAdvance(rnd));
    var y2 := Apply(c, e, y1, OpPrepareAdvance(rnd)).value;
    ApplyKeepsValid(c, e, y2, OpCommitPreparedAdvance);
  }

  /** Side `q` answers the offer that is out, and its answer is out too. */
  lemma AnswerLeg(c: Crypto, e: Edge, s: System, q: Party, x: Machine, kp: KeyPair, rnd: nat)
    requires var y := s.At(q).live;
             && Valid(e, y) && y.phase.Idle? && y.nextOfferer == Remote && Drawn(c, e, kp, rnd)
             && x.root == y.root && x.epoch == y.epoch < MAX_U64
             && x.localCounter == y.remoteCounter < MAX_U64 && x.remoteCounter == y.localCounter < MAX_U64
    requires OfferRecord(OfferBy(x, kp.publicKey)) in s.At(Other(q)).sent
    ensures var m := Answered(c, e, x, s.At(q).live, kp, rnd);
            && Valid(e, m)
            && Leads(c, e, s, s.With(q, Side(m, TakeSnapshot(e, m),
                                             s.At(q).sent + {AdvanceRecord(AnswerTo(c, x, kp.publicKey, rnd))})))
  {
    var side, o, a := s.At(q), OfferBy(x, kp.publicKey), AnswerTo(c, x, kp.publicKey, rnd);
    AnswerSteps(c, e, x, side.live, kp, rnd);
    var y1 := side.live.(phase := InboundOffer(o));
    var y2 := side.live.(phase := OutboundAdvancePrepared(o, a, HealedRoot(c, e, x, kp.publicKey, rnd)));
    var m := Answered(c, e, x, side.live, kp, rnd);
    var s1, s2, s3 := s.With(q, side.(live := y1)), s.With(q, side.(live := y2)), s.With(q, side.(live := m));
    Moves(c, e, s, q, OpAcceptOffer(o));
    Moves(c, e, s1, q, OpPrepareAdvance(rnd));
    Moves(c, e, s2, q, OpCommitPreparedAdvance);
    Publishes(c, e, s3, q, AdvanceRecord(a));
    LeadsOn(c, e, s, s1, s2);
    LeadsOn(c, e, s, s2, s3);
    LeadsOn(c, e, s, s3, s3.With(q, Side(m, TakeSnapshot(e, m), side.sent + {AdvanceRecord(a)})));
  }

  /** Accepting and committing the answer on the machine of the offerer. */
  lemma AcceptSteps(c: Crypto, e: Edge, x: Machine, kp: KeyPair, rnd: nat)
    requires KemCorrect(c) && Drawn(c, e, kp, rnd) && Valid(e, Offering(x, kp)) && x.phase.Idle?
    ensures var a, n := AnswerTo(c, x, kp.publicKey, rnd), Offered(c, e, x, kp, rnd);
            var x1 := x.(phase := InboundAdvancePrepared(OfferBy(x, kp.publicKey), a, kp, n.root));
            && Apply(c, e, Offering(x, kp), OpAcceptAdvance(a)) == Ok(x1)
            && Apply(c, e, x1, OpCommitAcceptedAdvance) == Ok(n.(phase := InboundAdvanceAwaitingAckDispatch(a)))
            && Valid(e, n.(phase := InboundAdvanceAwaitingAckDispatch(a)))
  {
    var a := AnswerTo(c, x, kp.publicKey, rnd);
    assert c.decapsulate(c.encapsulate(c.publicOf(kp.secretKey), rnd).ciphertext, kp.secretKey) ==
           c.encapsulate(c.publicOf(kp.secretKey), rnd).sharedSecret;
    assert ValidAdvance(e, a);
    ApplyKeepsValid(c, e, Offering(x, kp), OpAcceptAdvance(a));
    ApplyKeepsValid(c, e, Apply(c, e, Offering(x, kp), OpAcceptAdvance(a)).value, OpCommitAcceptedAdvance);
  }

  /** The offerer accepts the answer that is out, acknowledges it, and is done. */
  lemma AcceptLeg(c: Crypto, e: Edge, s: System, p: Party, x: Machine, kp: KeyPair, rnd: nat)
    requires KemCorrect(c) && Drawn(c, e, kp, rnd) && Valid(e, Offering(x, kp)) && x.phase.Idle?
    requires s.At(p).live == Offering(x, kp)
    requires AdvanceRecord(AnswerTo(c, x, kp.publicKey, rnd)) in s.At(Other(p)).sent
    ensures exists durable: Snapshot, sent: set<Record> ::
              && AckRecord(AckOf(AnswerTo(c, x, kp.publicKey, rnd))) in sent
              && Leads(c, e, s, s.With(p, Side(Offered(c, e, x, kp, rnd), durable, sent)))
  {
    var side, a, n := s.At(p), AnswerTo(c, x, kp.publicKey, rnd), Offered(c, e, x, kp, rnd);
    var x1 := x.(phase := InboundAdvancePrepared(OfferBy(x, kp.publicKey), a, kp, n.root));
    var x2 := n.(phase := InboundAdvanceAwaitingAckDispatch(a));
    AcceptSteps(c, e, x, kp, rnd);
    var saved := Side(x2, TakeSnapshot(e, x2), side.sent + {AckRecord(AckOf(a))});
    var s1, s2, s3 := s.With(p, side.(live := x1)), s.With(p, side.(live := x2)), s.With(p, saved);
    Moves(c, e, s, p, OpAcceptAdvance(a));
    Moves(c, e, s1, p, OpCommitAcceptedAdvance);
    Publishes(c, e, s2, p, AckRecord(AckOf(a)));
    Moves(c, e, s3, p, OpMarkAckDispatched(AckOf(a)));
    LeadsOn(c, e, s, s1, s2);
    LeadsOn(c, e, s, s2, s3);
    LeadsOn(c, e, s, s3, s.With(p, saved.(live := n)));
  }

  /** The acknowledgement that is out ends the exchange for the answering side. */
  lemma AckLeg(c: Crypto, e: Edge, s: System, q: Party, x: Machine, y: Machine, kp: KeyPair, rnd: nat)
    requires s.At(q).live == Answered(c, e, x, y, kp, rnd)
    requires AckRecord(AckOf(AnswerTo(c, x, kp.publicKey, rnd))) in s.At(Other(q)).sent
    ensures Leads(c, e, s, s.With(q, s.At(q).(live := Answered(c, e, x, y, kp, rnd).(phase := Idle))))
  {
    Moves(c, e, s, q, OpAcceptAcknowledgement(AckOf(AnswerTo(c, x, kp.publicKey, rnd))));
  }

  /** The two sides after the exchange that `p` started. */
  ghost predicate Exchanged(c: Crypto, e: Edge, s: System, t: System, p: Party, kp: KeyPair, rnd: nat) {
    var x, y := s.At(p).live, s.At(Other(p)).live;
    && t.At(p).live == Offered(c, e, x, kp, rnd)
    && t.At(Other(p)).live == Answered(c, e, x, y, kp, rnd).(phase := Idle)
  }

  lemma ExchangeLeads(c: Crypto, e: Edge, s: System, p: Party, kp: KeyPair, rnd: nat)
    requires KemCorrect(c) && MayOffer(e, s, p) && Drawn(c, e, kp, rnd)
    ensures exists t :: Leads(c, e, s, t) && Exchanged(c, e, s, t, p, kp, rnd)
  {
    var x, y, q := s.At(p).live, s.At(Other(p)).live, Other(p);
    var o, a := OfferBy(x, kp.publicKey), AnswerTo(c, x, kp.publicKey, rnd);
    OfferLeg(c, e, s, p, kp, rnd);
    var offering := Offering(x, kp);
    var s1 := s.With(p, Side(offering, TakeSnapshot(e, offering), s.At(p).sent + {OfferRecord(o)}));
    AnswerLeg(c, e, s1, q, x, kp, rnd);
    var m := Answered(c, e, x, y, kp, rnd);
    var s2 := s1.With(q, Side(m, TakeSnapshot(e, m), s.At(q).sent + {AdvanceRecord(a)}));
    AcceptLeg(c, e, s2, p, x, kp, rnd);
    var durable: Snapshot, sent: set<Record> :|
      AckRecord(AckOf(a)) in sent && Leads(c, e, s2, s2.With(p, Side(Offered(c, e, x, kp, rnd), durable, sent)));
    var s3 := s2.With(p, Side(Offered(c, e, x, kp, rnd), durable, sent));
    AckLeg(c, e, s3, q, x, y, kp, rnd);
    var s4 := s3.With(q, s3.At(q).(live := m.(phase := Idle)));
    LeadsOn(c, e, s, s1, s2);
    LeadsOn(c, e, s, s2, s3);
    LeadsOn(c, e, s, s3, s4);
  }

  /**
   What healing means for the machines `x` before and `x'` after: the next epoch, one more offer or answer on
   either side, the other turn, and a root from the old one, the encapsulated secret and the ADVANCE record.
   */
  ghost predicate Heals(c: Crypto, e: Edge, x: Machine, x': Machine, a: Advance, secret: Bytes) {
    && x'.phase.Idle? && x'.epoch == x.epoch + 1 && x'.nextOfferer != x.nextOfferer
    && x'.localCounter == x.localCounter + 1 && x'.remoteCounter == x.remoteCounter + 1
    && x'.root == c.kdf(x.root, secret, EncodeAdvance(e, a))
  }

  ghost predicate BothHeal(c: Crypto, e: Edge, s: System, t: System, kp: KeyPair, rnd: nat) {
    var enc := c.encapsulate(kp.publicKey, rnd);
    var x, y := s.a.live, s.b.live;
    var owner := if x.nextOfferer == Local then x else y;
    var a := Advance(owner.remoteCounter, Offer(owner.localCounter, owner.epoch, kp.publicKey), enc.ciphertext);
    && Heals(c, e, x, t.a.live, a, enc.sharedSecret) && Heals(c, e, y, t.b.live, a, enc.sharedSecret)
    && t.a.live.root == t.b.live.root
  }

  /**
   Healing is possible. From every reachable system with both sides unblocked and room in the counters, and
   for every key pair and encapsulation, some run unblocks both sides again in the next epoch, with one root
   made from the old one, the encapsulated secret and the ADVANCE record.
   */
  lemma HealingIsPossible(c: Crypto, e: Edge, s: System, kp: KeyPair, rnd: nat)
    requires KemCorrect(c) && Reachable(c, e, s) && Unblocked(s) && Drawn(c, e, kp, rnd)
    requires s.a.live.epoch < MAX_U64 && s.a.live.localCounter < MAX_U64 && s.a.live.remoteCounter < MAX_U64
    ensures exists evs :: ValidRun(c, e, s, evs) && BothHeal(c, e, s, Run(c, e, s, evs), kp, rnd)
  {
    var d, f := ReachableInv(c, e, s);
    var p := if s.a.live.nextOfferer == Local then A else B;
    PairIsSafe(c, e, s.a.live, s.b.live, s.a.sent, s.b.sent);
    assert MayOffer(e, s, p);
    ExchangeLeads(c, e, s, p, kp, rnd);
    var t :| Leads(c, e, s, t) && Exchanged(c, e, s, t, p, kp, rnd);
    var evs :| ValidRun(c, e, s, evs) && Run(c, e, s, evs) == t;
    assert BothHeal(c, e, s, t, kp, rnd);
  }
}
