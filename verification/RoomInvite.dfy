/**
 The room capability codecs of `src/roomInvite.ts`: 32 bytes as 43 base64url characters (section 5 of
 RFC 4648, without padding), and 32 bytes with a checksum byte as 24 words of 11 bits.
 */
module RoomInvite {
  import opened Wrappers
  import opened Seqs
  import opened Arithmetic
  import opened BitGroups

  const ROOM_CAPABILITY_BYTES: nat := 32
  const ROOM_CAPABILITY_BASE64URL_CHARS: nat := 43
  const ROOM_INVITE_WORDS: nat := 24

  type Octets = s: seq<nat> | InBase(8, s)

  datatype Error = BadLength | BadCharacter | NotCanonical | UnknownWord | BadChecksum

  // ----- base64url

  /** The base64url alphabet. */
  function CharOf(v: nat): char
    requires v < 64
  {
    if v < 26 then 'A' + v as char
    else if v < 52 then 'a' + (v - 26) as char
    else if v < 62 then '0' + (v - 52) as char
    else if v == 62 then '-' else '_'
  }

  function IndexOf(c: char): (r: Option<nat>)
    ensures forall v: nat :: r == Some(v) <==> v < 64 && CharOf(v) == c
  {
    if 'A' <= c <= 'Z' then Some((c - 'A') as nat)
    else if 'a' <= c <= 'z' then Some((c - 'a') as nat + 26)
    else if '0' <= c <= '9' then Some((c - '0') as nat + 52)
    else if c == '-' then Some(62)
    else if c == '_' then Some(63)
    else None
  }

  function Chars(sextets: seq<nat>): (s: string)
    requires InBase(6, sextets)
    ensures |s| == |sextets|
  {
    Pow2Values();
    seq(|sextets|, i requires 0 <= i < |sextets| => CharOf(sextets[i]))
  }

  /** The canonical text of a capability: its 256 bits and two zero bits, as 43 digits of 6 bits. */
  ghost function Base64Url(bytes: Octets): string {
    Chars(Digits(6, 43, Val(8, bytes) * 4))
  }

  /** The alphabet of section 5 of RFC 4648, given by the ends of its runs of consecutive characters. */
  lemma Alphabet(v: nat)
    requires v < 64
    ensures CharOf(0) == 'A' && CharOf(25) == 'Z' && CharOf(26) == 'a' && CharOf(51) == 'z'
    ensures CharOf(52) == '0' && CharOf(61) == '9' && CharOf(62) == '-' && CharOf(63) == '_'
    ensures v != 25 && v != 51 && v < 61 ==> CharOf(v + 1) as int == CharOf(v) as int + 1
  {}

  lemma {:induction false} DigitsOfZero(k: nat, n: nat)
    ensures Digits(k, n, 0) == seq(n, _ => 0)
  {
    if n > 0 { DigitsOfZero(k, n - 1); }
  }

  lemma {:induction false} ValOfZero(k: nat, n: nat)
    ensures Val(k, seq(n, _ => 0)) == 0
  {
    if n > 0 {
      ValOfZero(k, n - 1);
      assert seq(n, _ => 0) == seq(n - 1, _ => 0) + [0];
      ValAppend(k, seq(n - 1, _ => 0), 0);
    }
  }

  /** The text of the capability of 32 zero bytes. */
  lemma ZeroText()
    ensures var zero: seq<nat> := seq(32, _ => 0); InBase(8, zero) && Base64Url(zero) == seq(43, _ => 'A')
  {
    ValOfZero(8, 32);
    DigitsOfZero(6, 43);
    Alphabet(0);
  }

  lemma Append6(ds: seq<nat>, d: nat)
    ensures Val(6, ds + [d]) == Val(6, ds) * 64 + d
  {
    Pow2Values();
    ValAppend(6, ds, d);
  }

  lemma Append8(ds: seq<nat>, d: nat)
    ensures Val(8, ds + [d]) == Val(8, ds) * 256 + d
  {
    Pow2Values();
    ValAppend(8, ds, d);
  }

  /** `(chunk >>> shift) & 0x3f`, for the shifts 18, 12, 6 and 0. */
  function Sextet(chunk: nat, weight: nat): (v: nat)
    requires weight >= 1
    ensures v < 64
  {
    chunk / weight % 64
  }

  lemma SextetSum(chunk: nat)
    requires chunk < 16777216
    ensures Sextet(chunk, 262144) * 262144 + Sextet(chunk, 4096) * 4096 + Sextet(chunk, 64) * 64 + Sextet(chunk, 1) ==
        chunk
  {}

  lemma FourSextets(out: seq<nat>, w: nat, x: nat, y: nat, z: nat)
    ensures Val(6, out + [w, x, y, z]) == Val(6, out) * 16777216 + w * 262144 + x * 4096 + y * 64 + z
  {
    Append6(out, w);
    Append6(out + [w], x);
    Append6(out + [w] + [x], y);
    Append6(out + [w] + [x] + [y], z);
    assert out + [w] + [x] + [y] + [z] == out + [w, x, y, z];
  }

  lemma ThreeSextets(out: seq<nat>, w: nat, x: nat, y: nat)
    ensures Val(6, out + [w, x, y]) == Val(6, out) * 262144 + w * 4096 + x * 64 + y
  {
    Append6(out, w);
    Append6(out + [w], x);
    Append6(out + [w] + [x], y);
    assert out + [w] + [x] + [y] == out + [w, x, y];
  }

  lemma TwoBytes(bytes: seq<nat>, a: nat, b: nat)
    ensures Val(8, bytes + [a, b]) == Val(8, bytes) * 65536 + a * 256 + b
  {
    Append8(bytes, a);
    Append8(bytes + [a], b);
    assert bytes + [a] + [b] == bytes + [a, b];
  }

  lemma ThreeBytes(bytes: seq<nat>, a: nat, b: nat, c: nat)
    ensures Val(8, bytes + [a, b, c]) == Val(8, bytes) * 16777216 + a * 65536 + b * 256 + c
  {
    TwoBytes(bytes, a, b);
    Append8(bytes + [a, b], c);
    assert bytes + [a, b] + [c] == bytes + [a, b, c];
  }

  /** The sextets that one round of the loop writes for a group of `remaining` or more bytes. */
  function GroupSextets(chunk: nat, remaining: nat): (g: seq<nat>)
    ensures |g| == (if remaining > 2 then 4 else if remaining > 1 then 3 else 2) && forall i :: 0 <= i < |g| ==>
        g[i] < 64
  {
    [Sextet(chunk, 262144), Sextet(chunk, 4096)]
    + (if remaining > 1 then [Sextet(chunk, 64)] else [])
    + (if remaining > 2 then [Sextet(chunk, 1)] else [])
  }

  /** A group of three bytes keeps the number; a last group of two ends in two zero bits. */
  lemma GroupStep(bytes: seq<nat>, out: seq<nat>, a: nat, b: nat, c: nat)
    requires a < 256 && b < 256 && c < 256 && Val(6, out) == Val(8, bytes)
    ensures Val(6, out + GroupSextets(a * 65536 + b * 256 + c, 3)) == Val(8, bytes + [a, b, c])
    ensures Val(6, out + GroupSextets(a * 65536 + b * 256, 2)) == Val(8, bytes + [a, b]) * 4
  {
    var x, y := a * 65536 + b * 256 + c, a * 65536 + b * 256;
    SextetSum(x);
    SextetSum(y);
    FourSextets(out, Sextet(x, 262144), Sextet(x, 4096), Sextet(x, 64), Sextet(x, 1));
    ThreeSextets(out, Sextet(y, 262144), Sextet(y, 4096), Sextet(y, 64));
    assert GroupSextets(x, 3) == [Sextet(x, 262144), Sextet(x, 4096), Sextet(x, 64), Sextet(x, 1)];
    assert GroupSextets(y, 2) == [Sextet(y, 262144), Sextet(y, 4096), Sextet(y, 64)];
    ThreeBytes(bytes, a, b, c);
    TwoBytes(bytes, a, b);
  }

  lemma OctetBound(bytes: Octets, i: nat)
    requires i < |bytes|
    ensures bytes[i] < 256
  {
    Pow2Values();
  }

  lemma Grow6(out: seq<nat>, more: seq<nat>)
    requires InBase(6, out) && forall i :: 0 <= i < |more| ==> more[i] < 64
    ensures InBase(6, out + more)
  {
    Pow2Values();
  }

  /** What the loop has written once it is at `offset`, also when the last round stepped past the end. */
  ghost predicate Written(bytes: Octets, offset: nat, out: seq<nat>)
    requires |bytes| == 32
  {
    && InBase(6, out) && offset <= 33 && offset % 3 == 0
    && (if offset < 33 then |out| == offset / 3 * 4 && Val(6, out) == Val(8, bytes[..offset])
        else |out| == 43 && Val(6, out) == Val(8, bytes) * 4)
  }

  lemma FullRound(bytes: Octets, offset: nat, out: seq<nat>)
    requires |bytes| == 32 && offset < 30 && Written(bytes, offset, out)
    ensures Written(bytes, offset + 3,
        out + GroupSextets(bytes[offset] * 65536 + bytes[offset + 1] * 256 + bytes[offset + 2], 32 - offset))
  {
    var a, b, c := bytes[offset], bytes[offset + 1], bytes[offset + 2];
    OctetBound(bytes, offset);
    OctetBound(bytes, offset + 1);
    OctetBound(bytes, offset + 2);
    GroupStep(bytes[..offset], out, a, b, c);
    assert bytes[..offset + 3] == bytes[..offset] + [a, b, c];
    assert GroupSextets(a * 65536 + b * 256 + c, 32 - offset) == GroupSextets(a * 65536 + b * 256 + c, 3);
    Grow6(out, GroupSextets(a * 65536 + b * 256 + c, 3));
  }

  lemma LastRound(bytes: Octets, out: seq<nat>)
    requires |bytes| == 32 && Written(bytes, 30, out)
    ensures Written(bytes, 33, out + GroupSextets(bytes[30] * 65536 + bytes[31] * 256, 2))
  {
    OctetBound(bytes, 30);
    OctetBound(bytes, 31);
    GroupStep(bytes[..30], out, bytes[30], bytes[31], 0);
    assert bytes == bytes[..30] + [bytes[30], bytes[31]];
    Grow6(out, GroupSextets(bytes[30] * 65536 + bytes[31] * 256, 2));
  }

  method EncodeRoomCapabilityBase64Url(bytes: Octets) returns (r: Result<string, Error>)
    ensures r == if |bytes| == ROOM_CAPABILITY_BYTES then Ok(Base64Url(bytes)) else Err(BadLength)
  {
    if |bytes| != ROOM_CAPABILITY_BYTES { return Err(BadLength); }
    var out: seq<nat> := [];
    var offset := 0;
    while offset < |bytes|
      invariant Written(bytes, offset, out)
    {
      if offset < 30 { FullRound(bytes, offset, out); } else { LastRound(bytes, out); }
      var remaining := |bytes| - offset;
      var chunk := bytes[offset] * 65536 + (if remaining > 1 then bytes[offset + 1] else 0) * 256
                   + (if remaining > 2 then bytes[offset + 2] else 0);
      out := out + GroupSextets(chunk, remaining);
      offset := offset + 3;
    }
    DigitsOfVal(6, out);
    return Ok(Chars(out));
  }

  /** The sextets of a text, if all its characters are in the alphabet. */
  method Sextets(encoded: string) returns (r: Option<seq<nat>>)
    ensures r.Some? ==> InBase(6, r.value) && Chars(r.value) == encoded
    ensures forall ds: seq<nat> :: InBase(6, ds) && Chars(ds) == encoded ==> r == Some(ds)
  {
    Pow2Values();
    var out: seq<nat> := [];
    for i := 0 to |encoded|
      invariant |out| == i && forall k :: 0 <= k < i ==> IndexOf(encoded[k]) == Some(out[k])
    {
      var v := IndexOf(encoded[i]);
      if v.None? {
        forall ds: seq<nat> | InBase(6, ds) ensures Chars(ds) != encoded { NoSuchSextets(encoded, i, ds); }
        return None;
      }
      out := out + [v.value];
    }
    assert InBase(6, out);
    assert Chars(out) == encoded;
    forall ds: seq<nat> | InBase(6, ds) && Chars(ds) == encoded ensures ds == out { CharsInjective(ds, out); }
    return Some(out);
  }

  lemma NoSuchSextets(encoded: string, i: nat, ds: seq<nat>)
    requires i < |encoded| && IndexOf(encoded[i]).None? && InBase(6, ds)
    ensures Chars(ds) != encoded
  {
    Pow2Values();
    if |ds| == |encoded| { assert Chars(ds)[i] == CharOf(ds[i]); }
  }

  lemma CharsInjective(a: seq<nat>, b: seq<nat>)
    requires InBase(6, a) && InBase(6, b) && Chars(a) == Chars(b)
    ensures a == b
  {
    Pow2Values();
    forall i | 0 <= i < |a| ensures a[i] == b[i] {
      assert Chars(a)[i] == CharOf(a[i]) && Chars(b)[i] == CharOf(b[i]);
      assert IndexOf(CharOf(a[i])) == Some(a[i]);
    }
  }

  lemma CanonicalValue(bytes: Octets)
    requires |bytes| == 32
    ensures Val(6, Digits(6, 43, Val(8, bytes) * 4)) == Val(8, bytes) * 4
  {
    ValFits(8, bytes);
    Pow2Sum(256, 2);
    Pow2Values();
    ValOfDigits(6, 43, Val(8, bytes) * 4);
  }

  lemma CanonicalLast(bytes: Octets)
    ensures Digits(6, 43, Val(8, bytes) * 4)[42] % 4 == 0
  {
    Pow2Values();
    var v := Val(8, bytes) * 4;
    assert Digits(6, 43, v) == Digits(6, 42, Quotient(v, 64)) + [Remainder(v, 64)];
  }

  /** Regrouping the sextets of a canonical text gives back the bytes. */
  lemma RegroupCanonical(bytes: Octets, sextets: seq<nat>, out: seq<nat>, acc: nat, bits: nat)
    requires |bytes| == 32 && sextets == Digits(6, 43, Val(8, bytes) * 4)
    requires InBase(8, out) && bits < 8 && Times(|out|, 8) + bits == Times(43, 6)
    requires Holds(Val(6, sextets), 8, out, acc, bits)
    ensures out == bytes
  {
    TimesIs(|out|, 8);
    TimesIs(43, 6);
    assert bits == 2 && |out| == 32;
    Pow2Values();
    CanonicalValue(bytes);
    assert Val(8, out) == Val(8, bytes);
    DigitsOfVal(8, out);
    DigitsOfVal(8, bytes);
  }

  /** A text is accepted if and only if it is the canonical text of some capability, which is returned. */
  method DecodeRoomCapabilityBase64Url(encoded: string) returns (r: Result<Octets, Error>)
    ensures r.Ok? ==> |r.value| == ROOM_CAPABILITY_BYTES && encoded == Base64Url(r.value)
    ensures forall bytes: Octets :: |bytes| == ROOM_CAPABILITY_BYTES && encoded == Base64Url(bytes) ==> r == Ok(bytes)
  {
    if |encoded| != ROOM_CAPABILITY_BASE64URL_CHARS { return Err(BadCharacter); }
    var sextets := Sextets(encoded);
    if sextets.None? {
      forall bytes: Octets ensures encoded != Base64Url(bytes) { NotCanonicalText(encoded, bytes); }
      return Err(BadCharacter);
    }
    forall bytes: Octets | encoded == Base64Url(bytes) ensures sextets.value == Digits(6, 43, Val(8, bytes) * 4)
        && sextets.value[42] % 4 == 0 {
      CharsInjective(sextets.value, Digits(6, 43, Val(8, bytes) * 4));
      CanonicalLast(bytes);
    }
    if sextets.value[42] % 4 != 0 { return Err(NotCanonical); }
    var out, acc, bits := Regroup(6, 8, sextets.value);
    forall bytes: Octets | |bytes| == ROOM_CAPABILITY_BYTES && encoded == Base64Url(bytes) ensures out == bytes {
      RegroupCanonical(bytes, sextets.value, out, acc, bits);
    }
    var again := EncodeRoomCapabilityBase64Url(out);
    if |out| != ROOM_CAPABILITY_BYTES || again != Ok(encoded) { return Err(NotCanonical); }
    return Ok(out);
  }

  lemma NotCanonicalText(encoded: string, bytes: Octets)
    requires forall ds: seq<nat> :: InBase(6, ds) ==> Chars(ds) != encoded
    ensures encoded != Base64Url(bytes)
  {
    assert InBase(6, Digits(6, 43, Val(8, bytes) * 4));
  }

  // ----- words

  /** A regrouping that leaves no bits over rewrites the number in the other width. */
  lemma WholeRegroup(v: nat, to: nat, out: seq<nat>, acc: nat)
    requires InBase(to, out) && Holds(v, to, out, acc, 0)
    ensures out == Digits(to, |out|, v)
  {
    assert acc == 0 && v == Val(to, out);
    DigitsOfVal(to, out);
  }

  method BytesToWordIndexes(bytes: Octets) returns (r: Option<seq<nat>>)
    ensures r.Some? <==> (8 * |bytes|) % 11 == 0
    ensures r.Some? ==> 11 * |r.value| == 8 * |bytes| && r.value == Digits(11, |r.value|, Val(8, bytes))
  {
    var out, acc, bits := Regroup(8, 11, bytes);
    TimesIs(|out|, 11);
    TimesIs(|bytes|, 8);
    DivUnique(8 * |bytes|, 11, |out|, bits);
    if bits != 0 { return None; }
    WholeRegroup(Val(8, bytes), 11, out, acc);
    return Some(out);
  }

  method WordIndexesToBytes(indexes: seq<nat>) returns (r: Option<Octets>)
    requires InBase(11, indexes)
    ensures r.Some? <==> |indexes| == ROOM_INVITE_WORDS
    ensures r.Some? ==> r.value == Digits(8, 33, Val(11, indexes))
  {
    var out, acc, bits := Regroup(11, 8, indexes);
    TimesIs(|out|, 8);
    TimesIs(|indexes|, 11);
    if bits != 0 || |out| != ROOM_CAPABILITY_BYTES + 1 { return None; }
    WholeRegroup(Val(11, indexes), 8, out, acc);
    return Some(out);
  }

  /** 33 bytes and 24 word indexes are two ways to write the same 264 bits. */
  lemma WordsInverse(bytes: Octets, indexes: seq<nat>)
    requires |bytes| == 33 && |indexes| == 24 && InBase(11, indexes)
    ensures indexes == Digits(11, 24, Val(8, bytes)) <==> bytes == Digits(8, 33, Val(11, indexes))
  {
    RegroupInverse(8, 11, bytes, 24);
    RegroupInverse(11, 8, indexes, 33);
  }

  /** The first byte of the domain-separated SHA-256 digest, as a function of the capability. */
  type Checksum = Octets -> nat

  ghost predicate ChecksumOk(f: Checksum) { forall s: Octets :: f(s) < 256 }

  /** The load-time check of the word list: 2,048 unique words. */
  ghost predicate WordListOk(words: seq<string>) { |words| == 2048 && NoDup(words) }

  /** The capability followed by its checksum byte. */
  function WithChecksum(f: Checksum, capability: Octets): (s: seq<nat>)
    ensures |s| == |capability| + 1
  {
    capability + [f(capability)]
  }

  lemma WithChecksumOctets(f: Checksum, capability: Octets)
    requires ChecksumOk(f)
    ensures InBase(8, WithChecksum(f, capability))
  {
    Pow2Values();
  }

  /** `indexes` as words. */
  function WordsOf(list: seq<string>, indexes: seq<nat>): (ws: seq<string>)
    requires forall i :: 0 <= i < |indexes| ==> indexes[i] < |list|
  {
    seq(|indexes|, i requires 0 <= i < |indexes| => list[indexes[i]])
  }

  lemma IndexesInList(list: seq<string>, indexes: seq<nat>)
    requires WordListOk(list) && InBase(11, indexes)
    ensures forall i :: 0 <= i < |indexes| ==> indexes[i] < |list|
  {
    Pow2Values();
  }

  /** The 24 words of a capability. */
  ghost function InviteWords(list: seq<string>, f: Checksum, capability: Octets): seq<string>
    requires WordListOk(list)
  {
    var indexes := Digits(11, 24, Val(8, WithChecksum(f, capability)));
    IndexesInList(list, indexes);
    WordsOf(list, indexes)
  }

  /** Where the checksum goes: the last word is the last three bits of the capability and its checksum. */
  lemma LastWord(list: seq<string>, f: Checksum, capability: Octets)
    requires WordListOk(list) && ChecksumOk(f) && |capability| == 32
    ensures 0 <= (capability[31] % 8) * 256 + f(capability) < 2048
    ensures InviteWords(list, f, capability)[23] == list[(capability[31] % 8) * 256 + f(capability)]
  {
    var all := WithChecksum(f, capability);
    Pow2Values();
    var rest, last := capability[..31], capability[31];
    assert capability == rest + [last] && all == rest + [last, f(capability)];
    TwoBytes(rest, last, f(capability));
    var v := Val(8, all);
    assert v == (Val(8, rest) * 32 + last / 8) * 2048 + ((last % 8) * 256 + f(capability));
    DivUnique(v, 2048, Val(8, rest) * 32 + last / 8, (last % 8) * 256 + f(capability));
    assert Digits(11, 24, v) == Digits(11, 23, Quotient(v, 2048)) + [Remainder(v, 2048)];
    IndexesInList(list, Digits(11, 24, v));
  }

  method EncodeRoomCapabilityWords(list: seq<string>, f: Checksum, capability: Octets)
      returns (r: Result<seq<string>, Error>)
    requires WordListOk(list) && ChecksumOk(f)
    ensures r == if |capability| == ROOM_CAPABILITY_BYTES then Ok(InviteWords(list, f, capability)) else Err(BadLength)
  {
    if |capability| != ROOM_CAPABILITY_BYTES { return Err(BadLength); }
    WithChecksumOctets(f, capability);
    var indexes := BytesToWordIndexes(WithChecksum(f, capability));
    IndexesInList(list, indexes.value);
    return Ok(WordsOf(list, indexes.value));
  }

  method FindWord(list: seq<string>, word: string) returns (r: Option<nat>)
    ensures r.Some? ==> r.value < |list| && list[r.value] == word
    ensures r.None? ==> word !in list
  {
    for i := 0 to |list|
      invariant word !in list[..i]
    {
      if list[i] == word { return Some(i); }
      assert list[..i + 1] == list[..i] + [list[i]];
    }
    assert list[..|list|] == list;
    return None;
  }

  method WordIndexes(list: seq<string>, words: seq<string>) returns (r: Option<seq<nat>>)
    requires WordListOk(list)
    ensures r.Some? ==> |r.value| == |words| && InBase(11, r.value) && forall i :: 0 <= i < |words| ==>
        r.value[i] < |list| && list[r.value[i]] == words[i]
    ensures r.None? ==> exists i :: 0 <= i < |words| && words[i] !in list
  {
    var out: seq<nat> := [];
    for i := 0 to |words|
      invariant |out| == i && forall k :: 0 <= k < i ==> out[k] < |list| && list[out[k]] == words[k]
    {
      var j := FindWord(list, words[i]);
      if j.None? { return None; }
      out := out + [j.value];
    }
    Pow2Values();
    return Some(out);
  }

  /** Words that are in the list determine their indexes. */
  lemma IndexesUnique(list: seq<string>, a: seq<nat>, b: seq<nat>)
    requires WordListOk(list) && |a| == |b| && InBase(11, b)
    requires forall i :: 0 <= i < |a| ==> a[i] < |list| && b[i] < |list| && list[a[i]] == list[b[i]]
    ensures a == b
  {
    assert forall i :: 0 <= i < |a| ==> a[i] == b[i];
  }

  /** Nothing but the words of a capability with its own checksum decodes to it. */
  lemma WordsDetermine(list: seq<string>, f: Checksum, words: seq<string>, indexes: seq<nat>, capability: Octets)
    requires WordListOk(list) && ChecksumOk(f) && |words| == 24 && |indexes| == 24 && InBase(11, indexes)
    requires |capability| == 32
    requires forall i :: 0 <= i < 24 ==> indexes[i] < |list| && list[indexes[i]] == words[i]
    ensures words == InviteWords(list, f, capability) <==>
        Digits(8, 33, Val(11, indexes)) == WithChecksum(f, capability)
  {
    var canonical := Digits(11, 24, Val(8, WithChecksum(f, capability)));
    IndexesInList(list, canonical);
    WithChecksumOctets(f, capability);
    WordsInverse(WithChecksum(f, capability), indexes);
    if words == InviteWords(list, f, capability) {
      forall i | 0 <= i < 24 ensures list[indexes[i]] == list[canonical[i]] { assert words[i] == list[canonical[i]]; }
      IndexesUnique(list, indexes, canonical);
    }
    if indexes == canonical { assert words == WordsOf(list, canonical); }
  }

  lemma UnknownWordFails(list: seq<string>, f: Checksum, words: seq<string>, capability: Octets)
    requires WordListOk(list) && exists i :: 0 <= i < |words| && words[i] !in list
    ensures words != InviteWords(list, f, capability)
  {
    var i :| 0 <= i < |words| && words[i] !in list;
    var canonical := Digits(11, 24, Val(8, WithChecksum(f, capability)));
    IndexesInList(list, canonical);
    if |words| == 24 { assert InviteWords(list, f, capability)[i] == list[canonical[i]]; }
  }

  /** Words are accepted if and only if they are the words of some capability, which is returned. */
  method DecodeRoomCapabilityWords(list: seq<string>, f: Checksum, words: seq<string>)
      returns (r: Result<Octets, Error>)
    requires WordListOk(list) && ChecksumOk(f)
    ensures r.Ok? ==> |r.value| == ROOM_CAPABILITY_BYTES && words == InviteWords(list, f, r.value)
    ensures forall c: Octets :: |c| == ROOM_CAPABILITY_BYTES && words == InviteWords(list, f, c) ==> r == Ok(c)
  {
    if |words| != ROOM_INVITE_WORDS { return Err(BadLength); }
    var indexes := WordIndexes(list, words);
    if indexes.None? {
      forall c: Octets ensures words != InviteWords(list, f, c) { UnknownWordFails(list, f, words, c); }
      return Err(UnknownWord);
    }
    var decoded := WordIndexesToBytes(indexes.value);
    var capability: Octets := decoded.value[..ROOM_CAPABILITY_BYTES];
    forall c: Octets | |c| == ROOM_CAPABILITY_BYTES
      ensures words == InviteWords(list, f, c) <==> c == capability && f(c) == decoded.value[ROOM_CAPABILITY_BYTES]
    {
      WordsDetermine(list, f, words, indexes.value, c);
      assert decoded.value == decoded.value[..ROOM_CAPABILITY_BYTES] + [decoded.value[ROOM_CAPABILITY_BYTES]];
    }
    if f(capability) != decoded.value[ROOM_CAPABILITY_BYTES] { return Err(BadChecksum); }
    return Ok(capability);
  }
}
