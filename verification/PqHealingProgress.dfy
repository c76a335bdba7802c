/**
 A healing exchange can always be finished: from every reachable system, whatever was lost,
 duplicated or rolled back by a crash, some continuation unblocks both sides.
 */
module PqHealingProgress {
  import opened PqRecords
  import opened PqHealing
  import opened PqHealingRun
  import opened PqHealingSafety

  ghost predicate KemSizes(c: Crypto, e: Edge) {
    forall pk, rnd: nat :: |c.encapsulate(pk, rnd).ciphertext| == CiphertextBytes(e.suite)
  }

  ghost predicate Unblocked(s: System) {
    !s.a.live.TrafficBlocked() && !s.b.live.TrafficBlocked()
  }

  predicate OfferOut(m: Machine) { m.phase.OutboundOffer? && m.phase.dispatched }

  /** How far the answering side is, while the offer of the other side is out. */
  function AnswerDistance(p: Phase): nat {
    match p
    case InboundAdvanceAwaitingAckDispatch(_) => 11
    case InboundOffer(_) => 9
    case OutboundAdvancePrepared(_, _, _) => 8
    case OutboundAdvanceAwaitingAck(_, _) => 7
    case _ => 10
  }

  function ClosingDistance(p: Phase): nat {
    match p
    case OutboundOffer(_, _, _) => 1
    case InboundAdvanceAwaitingAckDispatch(_) => 1
    case OutboundAdvanceAwaitingAck(_, _) => 2
    case _ => 0
  }

  function Distance(x: Machine, y: Machine): nat {
    if OfferOut(x) then AnswerDistance(y.phase)
    else if OfferOut(y) then AnswerDistance(x.phase)
    else if x.phase.InboundAdvancePrepared? || y.phase.InboundAdvancePrepared? then 6
    else ClosingDistance(x.phase) + ClosingDistance(y.phase)
  }

  ghost predicate Closer(c: Crypto, e: Edge, s: System, evs: seq<Event>) {
    ValidRun(c, e, s, evs) &&
    var t := Run(c, e, s, evs);
    Distance(t.a.live, t.b.live) < Distance(s.a.live, s.b.live)
  }

  lemma OneEvent(c: Crypto, e: Edge, s: System, ev: Event)
    requires Enabled(c, e, s, ev)
    ensures ValidRun(c, e, s, [ev]) && Run(c, e, s, [ev]) == Step(c, e, s, ev)
  {
    assert [ev][1..] == [];
  }

  /** One side takes a transition on its own. */
  lemma MoveAlone(c: Crypto, e: Edge, s: System, p: Party, op: Op)
    requires OpEnabled(c, op, s.At(Other(p)).sent) && Apply(c, e, s.At(p).live, op).Ok?
    requires var x, y := s.At(p).live, s.At(Other(p)).live;
             Distance(Apply(c, e, x, op).value, y) < Distance(x, y)
    ensures Closer(c, e, s, [Do(p, op)])
  {
    OneEvent(c, e, s, Do(p, op));
  }

  /** The other side persists, (re)sends a record it stands behind, and this side accepts it. */
  lemma MoveTogether(c: Crypto, e: Edge, s: System, p: Party, r: Record, op: Op) returns (evs: seq<Event>)
    requires Valid(e, s.At(Other(p)).live) && StandsBehind(s.At(Other(p)).live, r)
    requires OpEnabled(c, op, s.At(Other(p)).sent + {r}) && Apply(c, e, s.At(p).live, op).Ok?
    requires var x, y := s.At(p).live, s.At(Other(p)).live;
             Distance(Apply(c, e, x, op).value, y) < Distance(x, y)
    ensures Closer(c, e, s, evs)
  {
    var q := Other(p);
    evs := [Persist(q), Dispatch(q, r), Do(p, op)];
    SnapshotRoundTrip(e, s.At(q).live);
    var t := Step(c, e, s, Persist(q));
    var u := Step(c, e, t, Dispatch(q, r));
    OneEvent(c, e, u, Do(p, op));
    assert evs[1..] == [Dispatch(q, r), Do(p, op)] && evs[1..][1..] == [Do(p, op)];
  }

  /** Something can be done by, or for, the side with live machine `x`. */
  ghost predicate Movable(c: Crypto, e: Edge, x: Machine, y: Machine) {
    || (x.phase.OutboundOffer? && !x.phase.dispatched)
    || (x.phase.InboundAdvanceAwaitingAckDispatch? && !y.phase.OutboundAdvanceAwaitingAck?)
    || x.phase.InboundAdvancePrepared? || x.phase.InboundOffer? || x.phase.OutboundAdvancePrepared?
    || (Level(x, y) && x.phase.OutboundAdvanceAwaitingAck?)
    || (Level(x, y) && x.phase.Idle? && OfferOut(y))
    || (Ahead(c, e, y, x) && OfferOut(x))
  }

  lemma SomeoneMovable(c: Crypto, e: Edge, x: Machine, y: Machine, fromX: set<Record>, fromY: set<Record>)
    requires PairOk(c, e, x, y, fromX, fromY) && (x.TrafficBlocked() || y.TrafficBlocked())
    ensures Movable(c, e, x, y) || Movable(c, e, y, x)
  {}

  lemma MoveAck(c: Crypto, e: Edge, s: System, p: Party) returns (evs: seq<Event>)
    requires var x, y := s.At(p).live, s.At(Other(p)).live;
             PairOk(c, e, x, y, s.At(p).sent, s.At(Other(p)).sent) && Level(x, y) && x.phase.OutboundAdvanceAwaitingAck?
    ensures Closer(c, e, s, evs)
  {
    var k := AckOf(s.At(p).live.phase.advance);
    evs := MoveTogether(c, e, s, p, AckRecord(k), OpAcceptAcknowledgement(k));
  }

  lemma MoveOffer(c: Crypto, e: Edge, s: System, p: Party) returns (evs: seq<Event>)
    requires var x, y := s.At(p).live, s.At(Other(p)).live;
             PairOk(c, e, x, y, s.At(p).sent, s.At(Other(p)).sent) && Level(x, y) && x.phase.Idle? && OfferOut(y)
    ensures Closer(c, e, s, evs)
  {
    var o := s.At(Other(p)).live.phase.offer;
    assert AcceptOffer(s.At(p).live, o).Ok?;
    evs := MoveTogether(c, e, s, p, OfferRecord(o), OpAcceptOffer(o));
  }

  lemma MoveAdvance(c: Crypto, e: Edge, s: System, p: Party) returns (evs: seq<Event>)
    requires var x, y := s.At(p).live, s.At(Other(p)).live;
             PairOk(c, e, x, y, s.At(p).sent, s.At(Other(p)).sent) && Ahead(c, e, y, x) && OfferOut(x)
    ensures Closer(c, e, s, evs)
  {
    var a := s.At(Other(p)).live.phase.advance;
    assert AcceptAdvance(c, e, s.At(p).live, a).Ok?;
    evs := MoveTogether(c, e, s, p, AdvanceRecord(a), OpAcceptAdvance(a));
  }

  lemma MoveFrom(c: Crypto, e: Edge, s: System, p: Party) returns (evs: seq<Event>)
    requires KemSizes(c, e)
    requires var x, y := s.At(p).live, s.At(Other(p)).live;
             PairOk(c, e, x, y, s.At(p).sent, s.At(Other(p)).sent) && Movable(c, e, x, y)
    ensures Closer(c, e, s, evs)
  {
    var x, y := s.At(p).live, s.At(Other(p)).live;
    if Level(x, y) && x.phase.OutboundAdvanceAwaitingAck? {
      evs := MoveAck(c, e, s, p);
    } else if Level(x, y) && x.phase.Idle? && OfferOut(y) {
      evs := MoveOffer(c, e, s, p);
    } else if Ahead(c, e, y, x) && OfferOut(x) {
      evs := MoveAdvance(c, e, s, p);
    } else {
      var op := match x.phase
        case OutboundOffer(_, _, _) => OpAbortUnsentOffer
        case InboundAdvanceAwaitingAckDispatch(a) => OpMarkAckDispatched(AckOf(a))
        case InboundAdvancePrepared(_, _, _, _) => OpCommitAcceptedAdvance
        case InboundOffer(_) => OpPrepareAdvance(0)
        case _ => OpCommitPreparedAdvance;
      MoveAlone(c, e, s, p, op);
      evs := [Do(p, op)];
    }
  }

  lemma {:induction false} RunAppend(c: Crypto, e: Edge, s: System, evs: seq<Event>, more: seq<Event>)
    requires ValidRun(c, e, s, evs) && ValidRun(c, e, Run(c, e, s, evs), more)
    ensures ValidRun(c, e, s, evs + more) && Run(c, e, s, evs + more) == Run(c, e, Run(c, e, s, evs), more)
    decreases |evs|
  {
    if evs == [] {
      assert evs + more == more;
    } else {
      RunAppend(c, e, Step(c, e, s, evs[0]), evs[1..], more);
      assert (evs + more)[1..] == evs[1..] + more;
    }
  }

  lemma {:induction false} FinishFrom(c: Crypto, e: Edge, s: System, d: Machine, f: Machine) returns (evs: seq<Event>)
    requires KemCorrect(c) && KemSizes(c, e) && Inv(c, e, s, d, f)
    ensures ValidRun(c, e, s, evs) && Unblocked(Run(c, e, s, evs))
    decreases Distance(s.a.live, s.b.live)
  {
    if Unblocked(s) { return []; }
    SomeoneMovable(c, e, s.a.live, s.b.live, s.a.sent, s.b.sent);
    var now;
    if Movable(c, e, s.a.live, s.b.live) {
      now := MoveFrom(c, e, s, A);
    } else {
      PairSymmetric(c, e, s.a.live, s.b.live, s.a.sent, s.b.sent);
      now := MoveFrom(c, e, s, B);
    }
    var d', f' := RunKeepsInv(c, e, s, d, f, now);
    var rest := FinishFrom(c, e, Run(c, e, s, now), d', f');
    RunAppend(c, e, s, now, rest);
    evs := now + rest;
  }

  /** No loss, duplication, reordering or crash can wedge the exchange. */
  lemma ExchangeCanFinish(c: Crypto, e: Edge, s: System)
    requires KemCorrect(c) && KemSizes(c, e) && Reachable(c, e, s)
    ensures exists evs :: ValidRun(c, e, s, evs) && Unblocked(Run(c, e, s, evs))
  {
    var d, f := ReachableInv(c, e, s);
    var evs := FinishFrom(c, e, s, d, f);
  }
}
