/** The canonical OFFER, ADVANCE and ACK records of `src/cryptography/pqHealing.ts`. */
module PqRecords {
  import opened Wrappers
  import opened Bytes

  datatype ParameterSet = P512 | P768 | P1024

  /** FIPS 203 sizes. */
  function PublicKeyBytes(p: ParameterSet): nat {
    match p case P512 => 800 case P768 => 1184 case P1024 => 1568
  }

  function SecretKeyBytes(p: ParameterSet): nat {
    match p case P512 => 1632 case P768 => 2400 case P1024 => 3168
  }

  function CiphertextBytes(p: ParameterSet): nat {
    match p case P512 => 768 case P768 => 1088 case P1024 => 1568
  }

  const ROOT_BYTES: nat := 32
  const BINDING_BYTES: nat := 32

  function Tag(p: ParameterSet): byte {
    match p case P768 => 1 case P512 => 2 case P1024 => 3
  }

  datatype Error =
    | BindingMismatch | CounterGap | EpochGap | Fork | InvalidRecord | InvalidState
    | Overflow | Replay | SuiteMismatch | WrongTurn

  function FromTag(tag: byte): Result<ParameterSet, Error> {
    if tag == 1 then Ok(P768) else if tag == 2 then Ok(P512) else if tag == 3 then Ok(P1024) else Err(InvalidRecord)
  }

  /** The authenticated edge: its suite and its transcript binding. */
  datatype EdgeData = Edge(suite: ParameterSet, binding: Bytes)

  type Edge = e: EdgeData | |e.binding| == BINDING_BYTES witness Edge(P768, seq(32, _ => 0))

  datatype Offer = Offer(senderCounter: nat, fromEpoch: nat, publicKey: Bytes) {
    function toEpoch(): nat { fromEpoch + 1 }
  }

  datatype Advance = Advance(senderCounter: nat, offer: Offer, ciphertext: Bytes) {
    function fromEpoch(): nat { offer.fromEpoch }
    function toEpoch(): nat { offer.fromEpoch + 1 }
  }

  datatype Ack = Ack(epoch: nat, advanceCounter: nat)

  predicate ValidOffer(e: Edge, o: Offer) {
    o.senderCounter <= MAX_U64 && o.fromEpoch < MAX_U64 && |o.publicKey| == PublicKeyBytes(e.suite)
  }

  predicate ValidAdvance(e: Edge, a: Advance) {
    a.senderCounter <= MAX_U64 && ValidOffer(e, a.offer) && |a.ciphertext| == CiphertextBytes(e.suite)
  }

  const MAGIC: Bytes := [0x50, 0x32, 0x51, 0x48]
  const FORMAT_VERSION: byte := 1
  const OFFER_TYPE: byte := 1
  const ADVANCE_TYPE: byte := 2
  const ACK_TYPE: byte := 3
  const HEADER_BYTES: nat := 64

  function Prefix(e: Edge, kind: byte): (s: Bytes)
    ensures |s| == 40
  {
    MAGIC + [FORMAT_VERSION, kind, Tag(e.suite), 0] + e.binding
  }

  function EncodeHeader(e: Edge, kind: byte, counter: nat, from: nat, to: nat): (s: Bytes)
    ensures |s| == HEADER_BYTES
  {
    Prefix(e, kind) + BE(counter, 8) + BE(from, 8) + BE(to, 8)
  }

  datatype DecodedHeader = DecodedHeader(counter: nat, from: nat, to: nat)

  /** The fixed part that every record starts with. */
  function CheckPrefix(e: Edge, kind: byte, record: Bytes): Result<(), Error>
    requires |record| >= HEADER_BYTES
  {
    if record[0..4] != MAGIC || record[4] != FORMAT_VERSION || record[5] != kind || record[7] != 0
        then Err(InvalidRecord)
    else match FromTag(record[6])
      case Err(x) => Err(x)
      case Ok(suite) =>
        if suite != e.suite then Err(SuiteMismatch)
        else if record[8..40] != e.binding then Err(BindingMismatch)
        else Ok(())
  }

  function DecodeHeader(e: Edge, kind: byte, record: Bytes): Result<DecodedHeader, Error> {
    if |record| < HEADER_BYTES then Err(InvalidRecord)
    else match CheckPrefix(e, kind, record)
      case Err(x) => Err(x)
      case Ok(_) =>
        var from, to := FromBE(record[48..56]), FromBE(record[56..64]);
        if from == MAX_U64 || to != from + 1 then Err(InvalidRecord)
        else Ok(DecodedHeader(FromBE(record[40..48]), from, to))
  }

  lemma PrefixAccepted(e: Edge, kind: byte, record: Bytes)
    requires |record| >= HEADER_BYTES
    ensures CheckPrefix(e, kind, record).Ok? <==> record[..40] == Prefix(e, kind)
  {
    var p := record[..40];
    assert p == record[0..4] + [record[4], record[5], record[6], record[7]] + record[8..40];
    if p == Prefix(e, kind) {
      assert p[0..4] == MAGIC && p[8..40] == e.binding;
    }
  }

  /** A record cut at the offsets of its header. */
  lemma HeaderFields(a: Bytes, b: Bytes, c: Bytes, d: Bytes, rest: Bytes)
    requires |a| == 40 && |b| == |c| == |d| == 8
    ensures var r := a + b + c + d + rest;
            r[..40] == a && r[40..48] == b && r[48..56] == c && r[56..64] == d && r[64..] == rest
  {}

  lemma CutAtFields(r: Bytes)
    requires |r| >= HEADER_BYTES
    ensures r == r[..40] + r[40..48] + r[48..56] + r[56..64] + r[64..]
    ensures |r| == HEADER_BYTES ==> r == r[..40] + r[40..48] + r[48..56] + r[56..64]
  {}

  lemma HeaderRoundTrip(e: Edge, kind: byte, counter: nat, from: nat, rest: Bytes)
    requires counter <= MAX_U64 && from < MAX_U64
    ensures var r := EncodeHeader(e, kind, counter, from, from + 1) + rest;
            DecodeHeader(e, kind, r) == Ok(DecodedHeader(counter, from, from + 1)) && r[64..] == rest
  {
    var r := EncodeHeader(e, kind, counter, from, from + 1) + rest;
    HeaderFields(Prefix(e, kind), BE(counter, 8), BE(from, 8), BE(from + 1, 8), rest);
    PrefixAccepted(e, kind, r);
    U64Range();
    ReadWrite(counter, 8);
    ReadWrite(from, 8);
    ReadWrite(from + 1, 8);
  }

  lemma HeaderCanonical(e: Edge, kind: byte, r: Bytes)
    requires DecodeHeader(e, kind, r).Ok?
    ensures var d := DecodeHeader(e, kind, r).value;
            && d.counter <= MAX_U64 && d.from < MAX_U64 && d.to == d.from + 1
            && r == EncodeHeader(e, kind, d.counter, d.from, d.to) + r[64..]
  {
    PrefixAccepted(e, kind, r);
    U64Range();
    FromBERange(r[40..48]);
    FromBERange(r[48..56]);
    WriteRead(r[40..48]);
    WriteRead(r[48..56]);
    WriteRead(r[56..64]);
    CutAtFields(r);
  }

  // ----- OFFER

  function EncodeOffer(e: Edge, o: Offer): Bytes {
    EncodeHeader(e, OFFER_TYPE, o.senderCounter, o.fromEpoch, o.toEpoch()) + o.publicKey
  }

  function OfferLength(p: ParameterSet): nat { HEADER_BYTES + PublicKeyBytes(p) }

  function DecodeOffer(e: Edge, record: Bytes): Result<Offer, Error> {
    match DecodeHeader(e, OFFER_TYPE, record)
    case Err(x) => Err(x)
    case Ok(d) =>
      if |record| != OfferLength(e.suite) then Err(InvalidRecord)
      else Ok(Offer(d.counter, d.from, record[HEADER_BYTES..]))
  }

  lemma OfferRoundTrip(e: Edge, o: Offer)
    requires ValidOffer(e, o)
    ensures DecodeOffer(e, EncodeOffer(e, o)) == Ok(o) && |EncodeOffer(e, o)| == OfferLength(e.suite)
  {
    HeaderRoundTrip(e, OFFER_TYPE, o.senderCounter, o.fromEpoch, o.publicKey);
  }

  lemma OfferCanonical(e: Edge, r: Bytes)
    requires DecodeOffer(e, r).Ok?
    ensures ValidOffer(e, DecodeOffer(e, r).value) && EncodeOffer(e, DecodeOffer(e, r).value) == r
  {
    HeaderCanonical(e, OFFER_TYPE, r);
  }

  // ----- ADVANCE

  function EncodeAdvance(e: Edge, a: Advance): Bytes {
    EncodeHeader(e, ADVANCE_TYPE, a.senderCounter, a.fromEpoch(), a.toEpoch())
    + (EncodeOffer(e, a.offer) + a.ciphertext)
  }

  function AdvanceLength(p: ParameterSet): nat { HEADER_BYTES + OfferLength(p) + CiphertextBytes(p) }

  function DecodeAdvance(e: Edge, record: Bytes): Result<Advance, Error> {
    match DecodeHeader(e, ADVANCE_TYPE, record)
    case Err(x) => Err(x)
    case Ok(d) =>
      if |record| != AdvanceLength(e.suite) then Err(InvalidRecord)
      else
        var split := HEADER_BYTES + OfferLength(e.suite);
        match DecodeOffer(e, record[HEADER_BYTES..split])
        case Err(x) => Err(x)
        case Ok(offer) =>
          if offer.fromEpoch != d.from || offer.toEpoch() != d.to then Err(Fork)
          else Ok(Advance(d.counter, offer, record[split..]))
  }

  lemma AdvanceRoundTrip(e: Edge, a: Advance)
    requires ValidAdvance(e, a)
    ensures DecodeAdvance(e, EncodeAdvance(e, a)) == Ok(a) && |EncodeAdvance(e, a)| == AdvanceLength(e.suite)
  {
    var r, body, split := EncodeAdvance(e, a), EncodeOffer(e, a.offer) + a.ciphertext,
        HEADER_BYTES + OfferLength(e.suite);
    HeaderRoundTrip(e, ADVANCE_TYPE, a.senderCounter, a.fromEpoch(), body);
    OfferRoundTrip(e, a.offer);
    assert r[HEADER_BYTES..split] == r[HEADER_BYTES..][..OfferLength(e.suite)] == EncodeOffer(e, a.offer);
    assert r[split..] == r[HEADER_BYTES..][OfferLength(e.suite)..] == a.ciphertext;
  }

  lemma AdvanceCanonical(e: Edge, r: Bytes)
    requires DecodeAdvance(e, r).Ok?
    ensures ValidAdvance(e, DecodeAdvance(e, r).value) && EncodeAdvance(e, DecodeAdvance(e, r).value) == r
  {
    var split := HEADER_BYTES + OfferLength(e.suite);
    HeaderCanonical(e, ADVANCE_TYPE, r);
    OfferCanonical(e, r[HEADER_BYTES..split]);
    assert r[HEADER_BYTES..] == r[HEADER_BYTES..split] + r[split..];
  }

  // ----- ACK

  function EncodeAck(e: Edge, k: Ack): Bytes {
    Prefix(e, ACK_TYPE) + BE(k.advanceCounter, 8) + BE(k.epoch, 8) + BE(0, 8)
  }

  function DecodeAck(e: Edge, record: Bytes): Result<Ack, Error> {
    if |record| != HEADER_BYTES then Err(InvalidRecord)
    else match CheckPrefix(e, ACK_TYPE, record)
      case Err(x) => Err(x)
      case Ok(_) =>
        if FromBE(record[56..64]) != 0 then Err(InvalidRecord)
        else Ok(Ack(FromBE(record[48..56]), FromBE(record[40..48])))
  }

  /** Encoding and decoding an ACK undo each other, in both directions. */
  lemma AckRoundTrip(e: Edge, k: Ack)
    requires k.epoch <= MAX_U64 && k.advanceCounter <= MAX_U64
    ensures DecodeAck(e, EncodeAck(e, k)) == Ok(k)
  {
    var r := EncodeAck(e, k);
    HeaderFields(Prefix(e, ACK_TYPE), BE(k.advanceCounter, 8), BE(k.epoch, 8), BE(0, 8), []);
    assert r == r + [];
    PrefixAccepted(e, ACK_TYPE, r);
    U64Range();
    ReadWrite(k.advanceCounter, 8);
    ReadWrite(k.epoch, 8);
    ReadWrite(0, 8);
  }

  lemma AckCanonical(e: Edge, r: Bytes)
    requires DecodeAck(e, r).Ok?
    ensures EncodeAck(e, DecodeAck(e, r).value) == r
  {
    PrefixAccepted(e, ACK_TYPE, r);
    WriteRead(r[40..48]);
    WriteRead(r[48..56]);
    WriteRead(r[56..64]);
    CutAtFields(r);
  }

  // ----- the layout

  /** The first 40 bytes of a record, by their offsets. */
  ghost predicate PrefixAt(e: Edge, r: Bytes, kind: byte) {
    && |r| >= 40 && r[..4] == [0x50, 0x32, 0x51, 0x48] && r[4] == 1 && r[5] == kind && r[7] == 0
    && r[6] == (match e.suite case P768 => 1 case P512 => 2 case P1024 => 3) && r[8..40] == e.binding
  }

  ghost predicate HeaderAt(e: Edge, r: Bytes, kind: byte, counter: nat, from: nat, to: nat) {
    && |r| >= 64 && PrefixAt(e, r, kind)
    && FromBE(r[40..48]) == counter && FromBE(r[48..56]) == from && FromBE(r[56..64]) == to
  }

  lemma PrefixIsAt(e: Edge, r: Bytes, kind: byte)
    requires |r| >= 40 && r[..40] == Prefix(e, kind)
    ensures PrefixAt(e, r, kind)
  {
    var p := r[..40];
    assert r[..4] == p[..4] == MAGIC && r[8..40] == p[8..40] == e.binding;
    assert forall i :: 0 <= i < 40 ==> r[i] == p[i];
  }

  lemma HeaderOf(e: Edge, kind: byte, b: Bytes, c: Bytes, d: Bytes, rest: Bytes)
    requires |b| == |c| == |d| == 8
    ensures HeaderAt(e, Prefix(e, kind) + b + c + d + rest, kind, FromBE(b), FromBE(c), FromBE(d))
  {
    HeaderFields(Prefix(e, kind), b, c, d, rest);
    PrefixIsAt(e, Prefix(e, kind) + b + c + d + rest, kind);
  }

  lemma HeaderIsAt(e: Edge, kind: byte, counter: nat, from: nat, to: nat, rest: Bytes)
    requires counter <= MAX_U64 && from <= MAX_U64 && to <= MAX_U64
    ensures HeaderAt(e, Prefix(e, kind) + BE(counter, 8) + BE(from, 8) + BE(to, 8) + rest, kind, counter, from, to)
  {
    HeaderOf(e, kind, BE(counter, 8), BE(from, 8), BE(to, 8), rest);
    U64Range();
    ReadWrite(counter, 8);
    ReadWrite(from, 8);
    ReadWrite(to, 8);
  }

  /** What is where in the three records. */
  lemma RecordLayout(e: Edge, o: Offer, a: Advance, k: Ack)
    requires ValidOffer(e, o) && ValidAdvance(e, a) && k.epoch <= MAX_U64 && k.advanceCounter <= MAX_U64
    ensures var r := EncodeOffer(e, o);
            HeaderAt(e, r, 1, o.senderCounter, o.fromEpoch, o.fromEpoch + 1) && r[64..] == o.publicKey
    ensures var r, n := EncodeAdvance(e, a), |EncodeOffer(e, a.offer)|;
            && HeaderAt(e, r, 2, a.senderCounter, a.offer.fromEpoch, a.offer.fromEpoch + 1)
            && |r| >= 64 + n && r[64..64 + n] == EncodeOffer(e, a.offer) && r[64 + n..] == a.ciphertext
    ensures var r := EncodeAck(e, k); HeaderAt(e, r, 3, k.advanceCounter, k.epoch, 0) && |r| == 64
  {
    HeaderIsAt(e, OFFER_TYPE, o.senderCounter, o.fromEpoch, o.toEpoch(), o.publicKey);
    HeaderIsAt(e, ADVANCE_TYPE, a.senderCounter, a.fromEpoch(), a.toEpoch(), EncodeOffer(e, a.offer) + a.ciphertext);
    HeaderIsAt(e, ACK_TYPE, k.advanceCounter, k.epoch, 0, []);
    assert EncodeAck(e, k) == EncodeAck(e, k) + [];
  }
}
