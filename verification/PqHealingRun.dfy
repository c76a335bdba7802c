/**
 Two healing machines, their durable checkpoints and the network between them.

 The network loses, duplicates and reorders freely, but delivers to a side only records that the
 other side dispatched. A side may crash at any time and come back as its last checkpoint. A record
 is dispatched only while both the live machine and the checkpoint stand behind it.
 */
module PqHealingRun {
  import opened Wrappers
  import opened Bytes
  import opened PqRecords
  import opened PqHealing

  datatype Party = A | B

  function Other(p: Party): Party { if p == A then B else A }

  datatype Record = OfferRecord(offer: Offer) | AdvanceRecord(advance: Advance) | AckRecord(ack: Ack)

  /** `sent` holds every record that ever left this side. */
  datatype Side = Side(live: Machine, durable: Snapshot, sent: set<Record>)

  datatype System = System(a: Side, b: Side) {
    function At(p: Party): Side { if p == A then a else b }

    function With(p: Party, side: Side): System { if p == A then this.(a := side) else this.(b := side) }
  }

  datatype Event =
    | Do(p: Party, op: Op)
    | Persist(p: Party)
    | Crash(p: Party)
    | Dispatch(p: Party, record: Record)

  /** What both sides agree on before the first event: `first` owns the turn, `byA` and `byB` count offers. */
  datatype Origin = Origin(root: Root, epoch: nat, byA: nat, byB: nat, first: Party) {
    predicate InRange() { epoch <= MAX_U64 && byA <= MAX_U64 && byB <= MAX_U64 }
  }

  /** New machines of both sides, with mirrored counters. */
  function Start(e: Edge, o: Origin): System {
    var a := Machine(o.root, o.epoch, o.byA, o.byB, if o.first == A then Local else Remote, Idle, None, None);
    var b := Machine(o.root, o.epoch, o.byB, o.byA, if o.first == B then Local else Remote, Idle, None, None);
    System(Side(a, TakeSnapshot(e, a), {}), Side(b, TakeSnapshot(e, b), {}))
  }

  /** The machine stands behind a record that leaves, or left, for the network. */
  predicate StandsBehind(m: Machine, r: Record) {
    match r
    case OfferRecord(o) => m.phase.OutboundOffer? && m.phase.dispatched && m.phase.offer == o
    case AdvanceRecord(a) => m.phase.OutboundAdvanceAwaitingAck? && m.phase.advance == a
    case AckRecord(k) => m.lastInboundAdvance.Some? && k == AckOf(m.lastInboundAdvance.value)
  }

  /** What a transition needs from outside: an authentic key pair, or a record the peer dispatched. */
  ghost predicate OpEnabled(c: Crypto, op: Op, inbound: set<Record>) {
    match op
    case OpPrepareOffer(kp) => kp.publicKey == c.publicOf(kp.secretKey)
    case OpAcceptOffer(o) => OfferRecord(o) in inbound
    case OpAcceptAdvance(a) => AdvanceRecord(a) in inbound
    case OpAcceptAcknowledgement(k) => AckRecord(k) in inbound
    case _ => true
  }

  ghost predicate Enabled(c: Crypto, e: Edge, s: System, ev: Event) {
    match ev
    case Do(p, op) => OpEnabled(c, op, s.At(Other(p)).sent)
    case Persist(_) => true
    case Crash(_) => true
    case Dispatch(p, r) =>
      StandsBehind(s.At(p).live, r) &&
      Restore(e, s.At(p).durable).Ok? && StandsBehind(Restore(e, s.At(p).durable).value, r)
  }

  function Step(c: Crypto, e: Edge, s: System, ev: Event): System {
    var side := s.At(ev.p);
    match ev
    case Do(p, op) =>
      (match Apply(c, e, side.live, op)
       case Err(_) => s
       case Ok(m) => s.With(p, side.(live := m)))
    case Persist(p) => s.With(p, side.(durable := TakeSnapshot(e, side.live)))
    case Crash(p) =>
      (match Restore(e, side.durable)
       case Err(_) => s
       case Ok(m) => s.With(p, side.(live := m)))
    case Dispatch(p, r) => s.With(p, side.(sent := side.sent + {r}))
  }

  ghost predicate ValidRun(c: Crypto, e: Edge, s: System, evs: seq<Event>)
    decreases |evs|
  {
    evs == [] || (Enabled(c, e, s, evs[0]) && ValidRun(c, e, Step(c, e, s, evs[0]), evs[1..]))
  }

  function Run(c: Crypto, e: Edge, s: System, evs: seq<Event>): System
    decreases |evs|
  {
    if evs == [] then s else Run(c, e, Step(c, e, s, evs[0]), evs[1..])
  }

  ghost predicate Reachable(c: Crypto, e: Edge, s: System) {
    exists o: Origin, evs: seq<Event> ::
      o.InRange() && ValidRun(c, e, Start(e, o), evs) && s == Run(c, e, Start(e, o), evs)
  }
}
