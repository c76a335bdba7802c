/**
 The binary session snapshot of `src/session.ts`: `encodeSessionSnapshot` and `decodeSessionSnapshot`.

 A failed decode (any of the source's exceptions) is `None`.
 */
module SessionSnapshot {
  import opened Wrappers
  import opened Arithmetic
  import opened Bytes
  import Ratchet

  const MAX_SKIP_SESSION := Ratchet.MAX_SKIP_SESSION
  const MAX_CHECKPOINT: nat := 256 * 1024
  const MAGIC: Bytes := [0x50, 0x32, 0x50, 0x53, 0x45, 0x53, 0x53, 0x00]
  const SNAPSHOT_VERSION: byte := 4
  const PROTOCOL_VERSION: byte := 4

  type Key = s: Bytes | |s| == 32 witness seq(32, _ => 0)

  type RootSuite = Ratchet.RootSuite

  function SuiteTag(suite: RootSuite): byte {
    match suite case MlKem768 => 3 case MlKem512 => 4 case MlKem1024 => 5
  }

  function TagSuite(tag: byte): (r: Option<RootSuite>)
    ensures forall suite :: r == Some(suite) <==> SuiteTag(suite) == tag
  {
    if tag == 3 then Some(Ratchet.MlKem768)
    else if tag == 4 then Some(Ratchet.MlKem512)
    else if tag == 5 then Some(Ratchet.MlKem1024)
    else None
  }

  // ----- what a snapshot holds

  datatype Flags = Flags(sending: bool, receiving: bool, remote: bool, initiator: bool)

  function FlagsByte(f: Flags): (b: byte) {
    (if f.sending then 1 else 0) + (if f.receiving then 2 else 0)
    + (if f.remote then 4 else 0) + (if f.initiator then 8 else 0)
  }

  /** Bits above the known four are refused. */
  function ByteFlags(b: byte): (r: Option<Flags>)
    ensures forall f :: r == Some(f) <==> FlagsByte(f) == b
  {
    if b >= 16 then None else Some(Flags(b % 2 == 1, b / 2 % 2 == 1, b / 4 % 2 == 1, b / 8 % 2 == 1))
  }

  datatype Fixed = Fixed(flags: Flags, suite: RootSuite, Ns: nat, Nr: nat, PN: nat, rootKey: Key)

  datatype Keys = Keys(sending: Option<Key>, receiving: Option<Key>, selfPub: Key, selfSec: Key, remote: Option<Key>)

  datatype Skipped = Skipped(dhPub: Key, n: nat, messageKey: Key)

  datatype Tail = Tail(skipped: seq<Skipped>, checkpoint: Bytes)

  datatype Session = Session(fixed: Fixed, keys: Keys, tail: Tail)

  predicate FixedOk(f: Fixed) { f.Ns <= MAX_SAFE && f.Nr <= MAX_SAFE && f.PN <= MAX_SAFE }

  predicate KeysOk(f: Flags, k: Keys) {
    && k.sending.Some? == f.sending && k.receiving.Some? == f.receiving && k.remote.Some? == f.remote
    && (k.sending.Some? || k.receiving.Some? ==> k.remote.Some?)
  }

  /** The skipped keys come from a map, so no two have the same chain and number. */
  ghost predicate DistinctKeys(es: seq<Skipped>) {
    forall i, j :: 0 <= i < j < |es| ==> es[i].dhPub != es[j].dhPub || es[i].n != es[j].n
  }

  ghost predicate TailOk(remote: bool, t: Tail) {
    && |t.skipped| <= MAX_SKIP_SESSION && (t.skipped != [] ==> remote)
    && (forall i :: 0 <= i < |t.skipped| ==> t.skipped[i].n <= MAX_SAFE)
    && DistinctKeys(t.skipped)
    && 1 <= |t.checkpoint| <= MAX_CHECKPOINT
  }

  ghost predicate Valid(s: Session) {
    FixedOk(s.fixed) && KeysOk(s.fixed.flags, s.keys) && TailOk(s.fixed.flags.remote, s.tail)
  }

  // ----- the format

  function OptBytes(k: Option<Key>): Bytes { if k.Some? then k.value else [] }

  function FixedBytes(f: Fixed): (s: Bytes)
    ensures |s| == 68
  {
    MAGIC + [SNAPSHOT_VERSION, PROTOCOL_VERSION, FlagsByte(f.flags), SuiteTag(f.suite)]
    + BE(f.Ns, 8) + BE(f.Nr, 8) + BE(f.PN, 8) + f.rootKey
  }

  function KeysBytes(k: Keys): Bytes {
    OptBytes(k.sending) + OptBytes(k.receiving) + k.selfPub + k.selfSec + OptBytes(k.remote)
  }

  function EntryBytes(e: Skipped): (s: Bytes)
    ensures |s| == 72
  {
    e.dhPub + BE(e.n, 8) + e.messageKey
  }

  function EntriesBytes(es: seq<Skipped>): (s: Bytes)
    ensures |s| == 72 * |es|
  {
    if es == [] then [] else EntriesBytes(es[..|es| - 1]) + EntryBytes(es[|es| - 1])
  }

  function TailBytes(t: Tail): Bytes {
    BE(|t.skipped|, 2) + EntriesBytes(t.skipped) + BE(|t.checkpoint|, 4) + t.checkpoint
  }

  function SnapshotBytes(s: Session): Bytes { FixedBytes(s.fixed) + KeysBytes(s.keys) + TailBytes(s.tail) }

  /** The first 68 bytes of a snapshot, by their offsets. */
  lemma FixedOffsets(f: Fixed)
    requires FixedOk(f)
    ensures var s := FixedBytes(f);
            && s[..8] == [0x50, 0x32, 0x50, 0x53, 0x45, 0x53, 0x53, 0x00] && s[8] == 4 && s[9] == 4
            && (s[10] % 2 == 1 <==> f.flags.sending) && (s[10] / 2 % 2 == 1 <==> f.flags.receiving)
            && (s[10] / 4 % 2 == 1 <==> f.flags.remote) && (s[10] / 8 % 2 == 1 <==> f.flags.initiator) && s[10] < 16
            && s[11] == (match f.suite case MlKem768 => 3 case MlKem512 => 4 case MlKem1024 => 5)
            && FromBE(s[12..20]) == f.Ns && FromBE(s[20..28]) == f.Nr && FromBE(s[28..36]) == f.PN
            && s[36..] == f.rootKey
  {
    Widths();
    ReadWrite(f.Ns, 8);
    ReadWrite(f.Nr, 8);
    ReadWrite(f.PN, 8);
    var s := FixedBytes(f);
    assert s[12..20] == BE(f.Ns, 8) && s[20..28] == BE(f.Nr, 8) && s[28..36] == BE(f.PN, 8);
  }

  /** All five keys follow in this order. */
  lemma KeysOffsets(k: Keys)
    requires k.sending.Some? && k.receiving.Some? && k.remote.Some?
    ensures var s := KeysBytes(k);
            && |s| == 160 && s[..32] == k.sending.value && s[32..64] == k.receiving.value && s[64..96] == k.selfPub
            && s[96..128] == k.selfSec && s[128..] == k.remote.value
  {
    FiveFields(k.sending.value, k.receiving.value, k.selfPub, k.selfSec, k.remote.value);
  }

  /** One that is missing takes no room. */
  lemma KeysMissing(k: Keys, sending: Key, receiving: Key, remote: Key)
    ensures k.sending.None? ==> KeysBytes(k.(sending := Some(sending))) == sending + KeysBytes(k)
    ensures k.sending.None? && k.receiving.None? ==>
              KeysBytes(k.(receiving := Some(receiving))) == receiving + KeysBytes(k)
    ensures k.remote.None? ==> KeysBytes(k.(remote := Some(remote))) == KeysBytes(k) + remote
  {}

  /** The parts of a skipped key. */
  lemma EntryFields(e: Skipped)
    requires e.n <= MAX_SAFE
    ensures var s := EntryBytes(e); s[..32] == e.dhPub && FromBE(s[32..40]) == e.n && s[40..] == e.messageKey
  {
    Widths();
    ReadWrite(e.n, 8);
    assert EntryBytes(e)[32..40] == BE(e.n, 8);
  }

  /** The count of skipped keys, the keys, the length of the checkpoint and the checkpoint, to the end. */
  lemma TailOffsets(t: Tail, remote: bool)
    requires TailOk(remote, t)
    ensures var s, n := TailBytes(t), 2 + 72 * |t.skipped|;
            && |s| == n + 4 + |t.checkpoint| && FromBE(s[..2]) == |t.skipped| && s[2..n] == EntriesBytes(t.skipped)
            && FromBE(s[n..n + 4]) == |t.checkpoint| && s[n + 4..] == t.checkpoint
  {
    Widths();
    ReadWrite(|t.skipped|, 2);
    ReadWrite(|t.checkpoint|, 4);
    FourParts(BE(|t.skipped|, 2), EntriesBytes(t.skipped), BE(|t.checkpoint|, 4), t.checkpoint);
  }

  lemma FourParts(a: Bytes, b: Bytes, c: Bytes, d: Bytes)
    ensures var s, m, n := a + b + c + d, |a| + |b|, |a| + |b| + |c|;
            s[..|a|] == a && s[|a|..m] == b && s[m..n] == c && s[n..] == d && |s| == n + |d|
  {}

  /** Skipped keys follow each other. */
  lemma {:induction false} EntryOffsets(es: seq<Skipped>, i: nat)
    requires i < |es|
    ensures EntriesBytes(es)[72 * i..72 * i + 72] == EntryBytes(es[i])
    decreases |es|
  {
    var rest := es[..|es| - 1];
    if i < |rest| {
      EntryOffsets(rest, i);
      assert EntriesBytes(es)[72 * i..72 * i + 72] == EntriesBytes(rest)[72 * i..72 * i + 72];
    }
  }

  // ----- numbers

  lemma NumberRoundTrip(n: nat, w: nat, max: nat, s: Bytes)
    requires |s| == w && max < Pow256(w)
    ensures n <= max && s == BE(n, w) <==> FromBE(s) == n <= max
  {
    if n <= max { ReadWrite(n, w); }
    WriteRead(s);
  }

  lemma Widths()
    ensures MAX_SAFE < Pow256(8) && 0xFFFF < Pow256(2) && 0xFFFF_FFFF < Pow256(4)
  {
    U64Range();
    assert Pow256(2) == 0x1_0000;
    assert Pow256(4) == 0x1_0000_0000;
  }

  // ----- the fixed prefix

  lemma FixedLayout(f: Fixed, s: Bytes)
    requires |s| == 68
    ensures s == FixedBytes(f) <==>
            && s[..8] == MAGIC && s[8] == SNAPSHOT_VERSION && s[9] == PROTOCOL_VERSION && s[10] == FlagsByte(f.flags)
            && s[11] == SuiteTag(f.suite)
            && s[12..20] == BE(f.Ns, 8) && s[20..28] == BE(f.Nr, 8) && s[28..36] == BE(f.PN, 8) && s[36..] == f.rootKey
  {
    var b := FixedBytes(f);
    assert b[..8] == MAGIC && b[12..20] == BE(f.Ns, 8) && b[20..28] == BE(f.Nr, 8) && b[28..36] == BE(f.PN, 8)
        && b[36..] == f.rootKey;
    assert s == s[..8] + [s[8], s[9], s[10], s[11]] + s[12..20] + s[20..28] + s[28..36] + s[36..];
  }

  /** `readU64`: eight bytes, at most the largest safe integer. */
  method ReadU64(bytes: Bytes, offset: nat) returns (r: Option<nat>)
    requires offset + 8 <= |bytes|
    ensures forall n: nat :: r == Some(n) <==> n <= MAX_SAFE && bytes[offset..offset + 8] == BE(n, 8)
  {
    Widths();
    var s := bytes[offset..offset + 8];
    forall n: nat ensures n <= MAX_SAFE && s == BE(n, 8) <==> FromBE(s) == n <= MAX_SAFE {
      NumberRoundTrip(n, 8, MAX_SAFE, s);
    }
    r := if FromBE(s) > MAX_SAFE then None else Some(FromBE(s));
  }

  method ReadCounters(bytes: Bytes) returns (r: Option<(nat, nat, nat)>)
    requires |bytes| >= 36
    ensures r.Some? ==>
              && r.value.0 <= MAX_SAFE && r.value.1 <= MAX_SAFE && r.value.2 <= MAX_SAFE
              && bytes[12..20] == BE(r.value.0, 8) && bytes[20..28] == BE(r.value.1, 8)
              && bytes[28..36] == BE(r.value.2, 8)
    ensures forall a: nat, b: nat, c: nat ::
              (a <= MAX_SAFE && b <= MAX_SAFE && c <= MAX_SAFE && bytes[12..20] == BE(a, 8)
                  && bytes[20..28] == BE(b, 8) && bytes[28..36] == BE(c, 8))
              ==> r == Some((a, b, c))
  {
    var ns := ReadU64(bytes, 12);
    if ns.None? { return None; }
    var nr := ReadU64(bytes, 20);
    if nr.None? { return None; }
    var pn := ReadU64(bytes, 28);
    if pn.None? { return None; }
    return Some((ns.value, nr.value, pn.value));
  }

  method ParseFixed(bytes: Bytes) returns (r: Option<Fixed>)
    ensures forall f: Fixed :: r == Some(f) <==> |bytes| >= 68 && FixedOk(f) && bytes[..68] == FixedBytes(f)
  {
    if |bytes| < 68 { return None; }
    ghost var s := bytes[..68];
    forall f: Fixed ensures s == FixedBytes(f) <==>
            && bytes[..8] == MAGIC && bytes[8] == SNAPSHOT_VERSION && bytes[9] == PROTOCOL_VERSION
            && bytes[10] == FlagsByte(f.flags) && bytes[11] == SuiteTag(f.suite)
            && bytes[12..20] == BE(f.Ns, 8) && bytes[20..28] == BE(f.Nr, 8) && bytes[28..36] == BE(f.PN, 8)
            && bytes[36..68] == f.rootKey
    {
      FixedLayout(f, s);
      assert s[..8] == bytes[..8] && s[12..20] == bytes[12..20] && s[20..28] == bytes[20..28]
          && s[28..36] == bytes[28..36] && s[36..] == bytes[36..68];
    }
    if bytes[..8] != MAGIC || bytes[8] != SNAPSHOT_VERSION || bytes[9] != PROTOCOL_VERSION { return None; }
    var flags := ByteFlags(bytes[10]);
    var suite := TagSuite(bytes[11]);
    if flags.None? || suite.None? { return None; }
    var counters := ReadCounters(bytes);
    if counters.None? { return None; }
    r := Some(Fixed(flags.value, suite.value, counters.value.0, counters.value.1, counters.value.2, bytes[36..68]));
  }

  // ----- the keys

  function KeysLength(f: Flags): nat {
    64 + (if f.sending then 32 else 0) + (if f.receiving then 32 else 0) + (if f.remote then 32 else 0)
  }

  /** The key at `offset`, if the flag says there is one. */
  function KeyAt(s: Bytes, offset: nat, present: bool): Option<Key>
    requires present ==> offset + 32 <= |s|
  {
    if present then Some(s[offset..offset + 32]) else None
  }

  function KeysFrom(f: Flags, s: Bytes): Keys
    requires |s| == KeysLength(f)
  {
    var a := if f.sending then 32 else 0;
    var b := a + if f.receiving then 32 else 0;
    Keys(KeyAt(s, 0, f.sending), KeyAt(s, a, f.receiving), s[b..b + 32], s[b + 32..b + 64], KeyAt(s, b + 64, f.remote))
  }

  ghost predicate Present(f: Flags, k: Keys) {
    k.sending.Some? == f.sending && k.receiving.Some? == f.receiving && k.remote.Some? == f.remote
  }

  lemma Middle(a: Bytes, b: Bytes, c: Bytes)
    ensures (a + b + c)[|a|..|a| + |b|] == b
  {}

  lemma SliceOfSlice(s: Bytes, i: nat, j: nat, k: nat, l: nat)
    requires i <= j <= |s| && k <= l <= j - i
    ensures s[i..j][k..l] == s[i + k..i + l]
  {
    forall x | 0 <= x < l - k ensures s[i..j][k..l][x] == s[i + k..i + l][x] { assert s[i..j][k + x] == s[i + k + x]; }
  }

  /** Five fields in a row, each found at its place. */
  lemma FiveFields(a: Bytes, b: Bytes, p: Bytes, q: Bytes, c: Bytes)
    ensures var v := a + b + p + q + c;
            var m, n := |a| + |b|, |a| + |b| + |p|;
            v[0..|a|] == a && v[|a|..m] == b && v[m..n] == p && v[n..n + |q|] == q && v[n + |q|..n + |q| + |c|] == c
  {
    var v := a + b + p + q + c;
    assert v == [] + a + (b + p + q + c);
    Middle([], a, b + p + q + c);
    assert v == a + b + (p + q + c);
    Middle(a, b, p + q + c);
    assert v == (a + b) + p + (q + c);
    Middle(a + b, p, q + c);
    Middle(a + b + p, q, c);
    assert v == (a + b + p + q) + c + [];
    Middle(a + b + p + q, c, []);
  }

  lemma KeysWriteRead(f: Flags, k: Keys)
    requires Present(f, k)
    ensures |KeysBytes(k)| == KeysLength(f) && KeysFrom(f, KeysBytes(k)) == k
  {
    FiveFields(OptBytes(k.sending), OptBytes(k.receiving), k.selfPub, k.selfSec, OptBytes(k.remote));
  }

  lemma KeysReadWrite(f: Flags, s: Bytes)
    requires |s| == KeysLength(f)
    ensures KeysBytes(KeysFrom(f, s)) == s
  {
    var a := if f.sending then 32 else 0;
    var b := a + if f.receiving then 32 else 0;
    var k := KeysFrom(f, s);
    assert OptBytes(k.sending) == s[..a] && OptBytes(k.receiving) == s[a..b];
    assert OptBytes(k.remote) == s[b + 64..|s|];
    CutAtFour(s, a, b, b + 32, b + 64);
  }

  lemma CutAtFour(s: Bytes, a: nat, b: nat, c: nat, d: nat)
    requires a <= b <= c <= d <= |s|
    ensures s == s[..a] + s[a..b] + s[b..c] + s[c..d] + s[d..|s|]
  {
    assert s[..a] + s[a..b] == s[..b];
    assert s[..b] + s[b..c] == s[..c];
    assert s[..c] + s[c..d] == s[..d];
    assert s[..d] + s[d..|s|] == s;
  }

  method ParseKeys(bytes: Bytes, offset: nat, flags: Flags) returns (r: Option<Keys>)
    requires offset <= |bytes|
    ensures forall k: Keys :: r == Some(k) <==>
              KeysOk(flags, k) && offset + KeysLength(flags) <= |bytes|
                  && bytes[offset..offset + KeysLength(flags)] == KeysBytes(k)
  {
    if offset + KeysLength(flags) > |bytes| || ((flags.sending || flags.receiving) && !flags.remote) { return None; }
    var s := bytes[offset..offset + KeysLength(flags)];
    KeysReadWrite(flags, s);
    forall k: Keys | Present(flags, k) ensures s == KeysBytes(k) <==> k == KeysFrom(flags, s) {
      KeysWriteRead(flags, k);
    }
    r := Some(KeysFrom(flags, s));
  }

  // ----- skipped keys and checkpoint

  lemma EntryLayout(e: Skipped, s: Bytes)
    requires |s| == 72
    ensures s == EntryBytes(e) <==> s[..32] == e.dhPub && s[32..40] == BE(e.n, 8) && s[40..] == e.messageKey
  {
    var b := EntryBytes(e);
    assert b[..32] == e.dhPub && b[32..40] == BE(e.n, 8) && b[40..] == e.messageKey;
    assert s == s[..32] + s[32..40] + s[40..];
  }

  method ParseEntry(bytes: Bytes, offset: nat) returns (r: Option<Skipped>)
    requires offset + 72 <= |bytes|
    ensures forall e: Skipped :: r == Some(e) <==> e.n <= MAX_SAFE && bytes[offset..offset + 72] == EntryBytes(e)
  {
    ghost var s := bytes[offset..offset + 72];
    forall e: Skipped ensures s == EntryBytes(e) <==>
      bytes[offset..offset + 32] == e.dhPub && bytes[offset + 32..offset + 40] == BE(e.n, 8)
          && bytes[offset + 40..offset + 72] == e.messageKey
    {
      EntryLayout(e, s);
      SliceOfSlice(bytes, offset, offset + 72, 0, 32);
      SliceOfSlice(bytes, offset, offset + 72, 32, 40);
      SliceOfSlice(bytes, offset, offset + 72, 40, 72);
      assert s[40..] == s[40..72] && s[..32] == s[0..32];
    }
    var n := ReadU64(bytes, offset + 32);
    if n.None? { return None; }
    r := Some(Skipped(bytes[offset..offset + 32], n.value, bytes[offset + 40..offset + 72]));
  }

  lemma {:induction false} EntryAt(es: seq<Skipped>, i: nat)
    requires i < |es|
    ensures EntriesBytes(es)[72 * i..72 * i + 72] == EntryBytes(es[i])
    decreases |es|
  {
    var rest := es[..|es| - 1];
    if i < |rest| {
      EntryAt(rest, i);
      assert EntriesBytes(es)[72 * i..72 * i + 72] == EntriesBytes(rest)[72 * i..72 * i + 72];
    }
  }

  /** From `offset` on, `bytes` holds exactly the entries `es`. */
  ghost predicate HoldsEntries(bytes: Bytes, offset: nat, es: seq<Skipped>) {
    offset + 72 * |es| <= |bytes| && bytes[offset..offset + 72 * |es|] == EntriesBytes(es)
  }

  lemma HoldsEntry(bytes: Bytes, offset: nat, es: seq<Skipped>, i: nat)
    requires HoldsEntries(bytes, offset, es) && i < |es|
    ensures bytes[offset + 72 * i..offset + 72 * i + 72] == EntryBytes(es[i])
  {
    EntryAt(es, i);
    SliceOfSlice(bytes, offset, offset + 72 * |es|, 72 * i, 72 * i + 72);
  }

  lemma HoldsMore(bytes: Bytes, offset: nat, es: seq<Skipped>, e: Skipped)
    requires HoldsEntries(bytes, offset, es) && offset + 72 * |es| + 72 <= |bytes|
    requires bytes[offset + 72 * |es|..offset + 72 * |es| + 72] == EntryBytes(e)
    ensures HoldsEntries(bytes, offset, es + [e])
  {
    assert (es + [e])[..|es|] == es;
    assert bytes[offset..offset + 72 * |es| + 72] ==
        bytes[offset..offset + 72 * |es|] + bytes[offset + 72 * |es|..offset + 72 * |es| + 72];
  }

  /** What decoding demands of the skipped keys. */
  ghost predicate EntriesOk(es: seq<Skipped>) { DistinctKeys(es) && forall i :: 0 <= i < |es| ==> es[i].n <= MAX_SAFE }

  datatype KeyId = KeyId(dhPub: Key, n: nat)

  function IdOf(e: Skipped): KeyId { KeyId(e.dhPub, e.n) }

  /** `es` is what the bytes at `offset` say. */
  ghost predicate Reads(bytes: Bytes, offset: nat, count: nat, es: seq<Skipped>) {
    |es| == count && EntriesOk(es) && HoldsEntries(bytes, offset, es)
  }

  lemma EntryInjective(a: Skipped, b: Skipped)
    requires a.n <= MAX_SAFE && b.n <= MAX_SAFE && EntryBytes(a) == EntryBytes(b)
    ensures a == b
  {
    Widths();
    EntryLayout(a, EntryBytes(a));
    EntryLayout(b, EntryBytes(a));
    ReadWrite(a.n, 8);
    ReadWrite(b.n, 8);
  }

  /** Entries read so far agree with any other way to read the bytes. */
  lemma ReadsAgree(bytes: Bytes, offset: nat, count: nat, es: seq<Skipped>, other: seq<Skipped>)
    requires Reads(bytes, offset, count, other) && EntriesOk(es) && HoldsEntries(bytes, offset, es) && |es| <= count
    ensures other[..|es|] == es
  {
    forall k | 0 <= k < |es| ensures other[k] == es[k] {
      HoldsEntry(bytes, offset, es, k);
      HoldsEntry(bytes, offset, other, k);
      EntryInjective(es[k], other[k]);
    }
  }

  /** No other reading gets past a repeated key. */
  lemma RepeatedKey(bytes: Bytes, offset: nat, count: nat, es: seq<Skipped>, e: Skipped, other: seq<Skipped>)
    requires EntriesOk(es) && HoldsEntries(bytes, offset, es) && |es| < count && e.n <= MAX_SAFE
    requires offset + 72 * |es| + 72 <= |bytes| && bytes[offset + 72 * |es|..offset + 72 * |es| + 72] == EntryBytes(e)
    requires exists k :: 0 <= k < |es| && IdOf(es[k]) == IdOf(e)
    ensures !Reads(bytes, offset, count, other)
  {
    if Reads(bytes, offset, count, other) {
      ReadsAgree(bytes, offset, count, es, other);
      HoldsEntry(bytes, offset, other, |es|);
      EntryInjective(e, other[|es|]);
    }
  }

  method ParseEntries(bytes: Bytes, offset: nat, count: nat) returns (r: Option<seq<Skipped>>)
    requires offset + 72 * count <= |bytes|
    ensures forall es: seq<Skipped> :: r == Some(es) <==> Reads(bytes, offset, count, es)
  {
    var es: seq<Skipped> := [];
    var seen: set<KeyId> := {};
    for i := 0 to count
      invariant |es| == i && EntriesOk(es) && HoldsEntries(bytes, offset, es)
      invariant forall id :: id in seen <==> exists k :: 0 <= k < i && IdOf(es[k]) == id
    {
      var e := ParseEntry(bytes, offset + 72 * i);
      if e.None? {
        forall other: seq<Skipped> ensures !Reads(bytes, offset, count, other) {
          if Reads(bytes, offset, count, other) { HoldsEntry(bytes, offset, other, i); }
        }
        return None;
      }
      if IdOf(e.value) in seen {
        forall other: seq<Skipped> ensures !Reads(bytes, offset, count, other) {
          RepeatedKey(bytes, offset, count, es, e.value, other);
        }
        return None;
      }
      HoldsMore(bytes, offset, es, e.value);
      seen := SeenMore(es, e.value, seen);
      es := es + [e.value];
    }
    forall other: seq<Skipped> | Reads(bytes, offset, count, other) ensures other == es {
      ReadsAgree(bytes, offset, count, es, other);
    }
    return Some(es);
  }

  method SeenMore(es: seq<Skipped>, e: Skipped, seen: set<KeyId>) returns (r: set<KeyId>)
    requires EntriesOk(es) && e.n <= MAX_SAFE && IdOf(e) !in seen
    requires forall id :: id in seen <==> exists k :: 0 <= k < |es| && IdOf(es[k]) == id
    ensures EntriesOk(es + [e])
    ensures forall id :: id in r <==> exists k :: 0 <= k < |es + [e]| && IdOf((es + [e])[k]) == id
  {
    r := seen + {IdOf(e)};
    var all := es + [e];
    forall id ensures id in r <==> exists k :: 0 <= k < |all| && IdOf(all[k]) == id {
      if id in seen {
        var k :| 0 <= k < |es| && IdOf(es[k]) == id;
        assert IdOf(all[k]) == id;
      }
      if id == IdOf(e) { assert IdOf(all[|es|]) == id; }
    }
    forall k | 0 <= k < |es| ensures es[k].dhPub != e.dhPub || es[k].n != e.n { assert IdOf(es[k]) in seen; }
  }

  lemma TailLayout(t: Tail, s: Bytes)
    ensures s == TailBytes(t) <==>
            var n := 2 + 72 * |t.skipped|;
            && |s| == n + 4 + |t.checkpoint| && s[0..2] == BE(|t.skipped|, 2) && s[2..n] == EntriesBytes(t.skipped)
            && s[n..n + 4] == BE(|t.checkpoint|, 4) && s[n + 4..] == t.checkpoint
  {
    var n := 2 + 72 * |t.skipped|;
    FiveFields(BE(|t.skipped|, 2), EntriesBytes(t.skipped), BE(|t.checkpoint|, 4), t.checkpoint, []);
    assert TailBytes(t) == TailBytes(t) + [];
    if |s| == n + 4 + |t.checkpoint| {
      assert s == s[0..2] + s[2..n] + s[n..n + 4] + s[n + 4..];
      assert s[n + 4..] == s[n + 4..n + 4 + |t.checkpoint|];
    }
  }

  /** An unsigned number of `w` bytes, at most `max`. */
  lemma ReadsNumber(s: Bytes, w: nat, max: nat)
    requires |s| == w && max < Pow256(w)
    ensures forall n: nat :: n <= max ==> (s == BE(n, w) <==> n == FromBE(s))
  {
    forall n: nat | n <= max ensures s == BE(n, w) <==> n == FromBE(s) { NumberRoundTrip(n, w, max, s); }
  }

  /** What `ParseTail` finds at the end of the input. */
  ghost predicate TailIs(bytes: Bytes, offset: nat, count: nat, remote: bool, t: Tail)
    requires offset + 6 + 72 * count <= |bytes|
  {
    var n := offset + 2 + 72 * count;
    && |t.skipped| == count && Reads(bytes, offset + 2, count, t.skipped)
    && bytes[n..n + 4] == BE(|t.checkpoint|, 4) && bytes[n + 4..] == t.checkpoint
    && 1 <= |t.checkpoint| <= MAX_CHECKPOINT
    && count <= MAX_SKIP_SESSION && (count > 0 ==> remote)
  }

  /** The layout of the tail, in positions of the whole input. */
  lemma TailAt(bytes: Bytes, offset: nat, t: Tail)
    requires offset <= |bytes|
    ensures var n := offset + 2 + 72 * |t.skipped|;
            bytes[offset..] == TailBytes(t) <==>
              && |bytes| == n + 4 + |t.checkpoint| && bytes[offset..offset + 2] == BE(|t.skipped|, 2)
              && bytes[offset + 2..n] == EntriesBytes(t.skipped) && bytes[n..n + 4] == BE(|t.checkpoint|, 4)
              && bytes[n + 4..] == t.checkpoint
  {
    var s, n := bytes[offset..], 2 + 72 * |t.skipped|;
    assert s == bytes[offset..|bytes|];
    TailLayout(t, s);
    if n + 4 <= |s| {
      SliceOfSlice(bytes, offset, |bytes|, 0, 2);
      SliceOfSlice(bytes, offset, |bytes|, 2, n);
      SliceOfSlice(bytes, offset, |bytes|, n, n + 4);
      SliceOfSlice(bytes, offset, |bytes|, n + 4, |s|);
      assert s[n + 4..] == s[n + 4..|s|];
    }
  }

  lemma TailMeans(bytes: Bytes, offset: nat, remote: bool, t: Tail)
    requires offset + 2 <= |bytes|
    ensures var count := FromBE(bytes[offset..offset + 2]);
            TailOk(remote, t) && bytes[offset..] == TailBytes(t) <==>
                offset + 6 + 72 * count <= |bytes| && TailIs(bytes, offset, count, remote, t)
  {
    Widths();
    ReadsNumber(bytes[offset..offset + 2], 2, 0xFFFF);
    TailAt(bytes, offset, t);
  }

  method ParseTail(bytes: Bytes, offset: nat, remote: bool) returns (r: Option<Tail>)
    requires offset <= |bytes|
    ensures forall t: Tail :: r == Some(t) <==> TailOk(remote, t) && bytes[offset..] == TailBytes(t)
  {
    if offset + 2 > |bytes| {
      forall t: Tail ensures bytes[offset..] != TailBytes(t) { assert |TailBytes(t)| >= 2; }
      return None;
    }
    var count := FromBE(bytes[offset..offset + 2]);
    forall t: Tail
      ensures TailOk(remote, t) && bytes[offset..] == TailBytes(t) <==>
          offset + 6 + 72 * count <= |bytes| && TailIs(bytes, offset, count, remote, t)
    {
      TailMeans(bytes, offset, remote, t);
    }
    if count > MAX_SKIP_SESSION || (!remote && count > 0) || |bytes| - (offset + 2) < 72 * count + 4 { return None; }
    r := ParseBody(bytes, offset, count, remote);
  }

  method ParseBody(bytes: Bytes, offset: nat, count: nat, remote: bool) returns (r: Option<Tail>)
    requires offset + 6 + 72 * count <= |bytes| && count <= MAX_SKIP_SESSION && (count > 0 ==> remote)
    ensures forall t: Tail :: r == Some(t) <==> TailIs(bytes, offset, count, remote, t)
  {
    var entries := ParseEntries(bytes, offset + 2, count);
    if entries.None? { return None; }
    var n := offset + 2 + 72 * count;
    var length := FromBE(bytes[n..n + 4]);
    Widths();
    ReadsNumber(bytes[n..n + 4], 4, MAX_CHECKPOINT);
    if length == 0 || length > MAX_CHECKPOINT || |bytes| - (n + 4) != length { return None; }
    return Some(Tail(entries.value, bytes[n + 4..]));
  }

  lemma ThreeParts(a: Bytes, b: Bytes, c: Bytes, s: Bytes)
    ensures var m, n := |a|, |a| + |b|;
            s == a + b + c <==> |s| >= n && s[..m] == a && s[m..n] == b && s[n..] == c
  {
    var m, n := |a|, |a| + |b|;
    Middle(a, b, c);
    assert (a + b + c)[..m] == a && (a + b + c)[n..] == c;
    if |s| >= n { assert s == s[..m] + s[m..n] + s[n..]; }
  }

  lemma SnapshotParts(s: Session, bytes: Bytes)
    requires Valid(s)
    ensures var n := 68 + KeysLength(s.fixed.flags);
            bytes == SnapshotBytes(s) <==>
              |bytes| >= n && bytes[..68] == FixedBytes(s.fixed) && bytes[68..n] == KeysBytes(s.keys)
                  && bytes[n..] == TailBytes(s.tail)
  {
    KeysWriteRead(s.fixed.flags, s.keys);
    ThreeParts(FixedBytes(s.fixed), KeysBytes(s.keys), TailBytes(s.tail), bytes);
  }

  /**
   Decoding inverts encoding, and accepts nothing else: the result is `s` if and only if `s` is valid
   and the input is exactly its encoding.
   */
  method DecodeSessionSnapshot(bytes: Bytes) returns (r: Option<Session>)
    ensures forall s: Session :: r == Some(s) <==> Valid(s) && bytes == SnapshotBytes(s)
  {
    forall s: Session | Valid(s)
      ensures var n := 68 + KeysLength(s.fixed.flags);
              bytes == SnapshotBytes(s) <==>
                |bytes| >= n && bytes[..68] == FixedBytes(s.fixed) && bytes[68..n] == KeysBytes(s.keys)
                    && bytes[n..] == TailBytes(s.tail)
    {
      SnapshotParts(s, bytes);
    }
    var fixed := ParseFixed(bytes);
    if fixed.None? { return None; }
    var keys := ParseKeys(bytes, 68, fixed.value.flags);
    if keys.None? { return None; }
    var tail := ParseTail(bytes, 68 + KeysLength(fixed.value.flags), fixed.value.flags.remote);
    if tail.None? { return None; }
    return Some(Session(fixed.value, keys.value, tail.value));
  }

  method WriteEntries(es: seq<Skipped>) returns (out: Bytes)
    ensures out == EntriesBytes(es)
  {
    out := [];
    for i := 0 to |es|
      invariant out == EntriesBytes(es[..i])
    {
      assert es[..i + 1][..i] == es[..i];
      out := out + es[i].dhPub + BE(es[i].n, 8) + es[i].messageKey;
      assert out == EntriesBytes(es[..i]) + EntryBytes(es[i]);
    }
    assert es[..|es|] == es;
  }

  /** `validateSnapshotState` and the length check of the checkpoint. */
  predicate Encodable(s: Session) {
    && FixedOk(s.fixed) && KeysOk(s.fixed.flags, s.keys)
    && |s.tail.skipped| <= MAX_SKIP_SESSION && (s.tail.skipped != [] ==> s.keys.remote.Some?)
    && (forall i :: 0 <= i < |s.tail.skipped| ==> s.tail.skipped[i].n <= MAX_SAFE)
    && 1 <= |s.tail.checkpoint| <= MAX_CHECKPOINT
  }

  method WriteFixed(f: Fixed) returns (out: Bytes)
    ensures out == FixedBytes(f)
  {
    out := MAGIC + [SNAPSHOT_VERSION, PROTOCOL_VERSION, FlagsByte(f.flags), SuiteTag(f.suite)];
    out := out + BE(f.Ns, 8) + BE(f.Nr, 8) + BE(f.PN, 8) + f.rootKey;
  }

  method WriteKeys(k: Keys) returns (out: Bytes)
    ensures out == KeysBytes(k)
  {
    out := [];
    if k.sending.Some? { out := out + k.sending.value; }
    if k.receiving.Some? { out := out + k.receiving.value; }
    out := out + k.selfPub;
    out := out + k.selfSec;
    if k.remote.Some? { out := out + k.remote.value; }
  }

  method WriteTail(t: Tail) returns (out: Bytes)
    ensures out == TailBytes(t)
  {
    var entries := WriteEntries(t.skipped);
    out := BE(|t.skipped|, 2) + entries + BE(|t.checkpoint|, 4) + t.checkpoint;
  }

  const SNAPSHOT_FIXED_PREFIX_LEN: nat := 134

  function OptionalKeys(f: Flags): nat {
    (if f.sending then 1 else 0) + (if f.receiving then 1 else 0) + (if f.remote then 1 else 0)
  }

  /** The length that the buffer is allocated with. */
  function SizeOf(s: Session): nat {
    SNAPSHOT_FIXED_PREFIX_LEN + OptionalKeys(s.fixed.flags) * 32 + |s.tail.skipped| * 72 + 4 + |s.tail.checkpoint|
  }

  /** Every valid session is encoded, into exactly as many bytes as the buffer is sized for. */
  method EncodeSessionSnapshot(s: Session) returns (r: Option<Bytes>)
    requires DistinctKeys(s.tail.skipped)
    ensures r == if Valid(s) then Some(SnapshotBytes(s)) else None
    ensures r.Some? ==> |r.value| == SizeOf(s)
  {
    if !Encodable(s) { return None; }
    KeysWriteRead(s.fixed.flags, s.keys);
    var fixed := WriteFixed(s.fixed);
    var keys := WriteKeys(s.keys);
    var tail := WriteTail(s.tail);
    return Some(fixed + keys + tail);
  }
}
