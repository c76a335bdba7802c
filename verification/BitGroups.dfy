/**
 Regrouping bits: a sequence of `from`-bit digits read through an accumulator as `to`-bit digits, as
 the loops of `src/roomInvite.ts` do it, against positional numerals as the reference.
 */
module BitGroups {
  import opened Arithmetic

  lemma {:induction false} Pow2Sum(a: nat, b: nat)
    ensures Pow2(a + b) == Pow2(a) * Pow2(b)
  {
    if b > 0 {
      Pow2Sum(a, b - 1);
      assert Pow2(a) * (2 * Pow2(b - 1)) == 2 * (Pow2(a) * Pow2(b - 1));
    }
  }

  lemma Pow2Monotone(a: nat, b: nat)
    requires a <= b
    ensures Pow2(a) <= Pow2(b)
  {
    Pow2Sum(a, b - a);
    Monotone(1, Pow2(b - a), Pow2(a));
  }

  lemma Pow2Values()
    ensures Pow2(2) == 4 && Pow2(4) == 16 && Pow2(6) == 64 && Pow2(8) == 256 && Pow2(11) == 2048
    ensures Pow2(31) == 0x8000_0000
  {
    assert Pow2(4) == 16;
    assert Pow2(6) == 64;
    assert Pow2(8) == 256;
    assert Pow2(11) == 2048;
    Pow2Sum(11, 11);
    Pow2Sum(22, 8);
  }

  // ----- numerals

  predicate InBase(k: nat, ds: seq<nat>) { forall i :: 0 <= i < |ds| ==> ds[i] < Pow2(k) }

  /** The number that `k`-bit digits write, most significant first. */
  function Val(k: nat, ds: seq<nat>): nat {
    if ds == [] then 0 else Val(k, ds[..|ds| - 1]) * Pow2(k) + ds[|ds| - 1]
  }

  /** `n` digits of `k` bits. */
  function Digits(k: nat, n: nat, v: nat): (ds: seq<nat>)
    ensures |ds| == n && InBase(k, ds)
  {
    if n == 0 then [] else Digits(k, n - 1, Quotient(v, Pow2(k))) + [Remainder(v, Pow2(k))]
  }

  function Quotient(v: nat, p: nat): nat
    requires p >= 1
  {
    DigitsOf(v, p, v + 1);
    v / p
  }

  function Remainder(v: nat, p: nat): (r: nat)
    requires p >= 1
    ensures r < p
  {
    v % p
  }

  lemma ValAppend(k: nat, ds: seq<nat>, d: nat)
    ensures Val(k, ds + [d]) == Val(k, ds) * Pow2(k) + d
  {
    assert (ds + [d])[..|ds|] == ds;
  }

  lemma {:induction false} DigitsOfVal(k: nat, ds: seq<nat>)
    requires InBase(k, ds)
    ensures Digits(k, |ds|, Val(k, ds)) == ds
    decreases |ds|
  {
    if ds != [] {
      var rest, d := ds[..|ds| - 1], ds[|ds| - 1];
      DigitsOfVal(k, rest);
      DivUnique(Val(k, ds), Pow2(k), Val(k, rest), d);
      assert ds == rest + [d];
    }
  }

  lemma {:induction false} ValOfDigits(k: nat, n: nat, v: nat)
    requires v < Pow2(k * n)
    ensures Val(k, Digits(k, n, v)) == v
    decreases n
  {
    if n > 0 {
      assert k * n == k * (n - 1) + k;
      Pow2Sum(k * (n - 1), k);
      DigitsOf(v, Pow2(k), Pow2(k * (n - 1)));
      ValOfDigits(k, n - 1, Quotient(v, Pow2(k)));
      ValAppend(k, Digits(k, n - 1, Quotient(v, Pow2(k))), Remainder(v, Pow2(k)));
    }
  }

  lemma {:induction false} ValFits(k: nat, ds: seq<nat>)
    requires InBase(k, ds)
    ensures Val(k, ds) < Pow2(k * |ds|)
    decreases |ds|
  {
    if ds != [] {
      var rest := ds[..|ds| - 1];
      ValFits(k, rest);
      assert k * |ds| == k * |rest| + k;
      Pow2Sum(k * |rest|, k);
      PushOn(Val(k, rest), 0, Pow2(k * |rest|), Val(k, rest), Pow2(k), ds[|rest|]);
    }
  }

  /**
   Digits of two widths with the same number of bits: rewriting a numeral in the other width and
   back gives the same digits.
   */
  lemma RegroupInverse(a: nat, b: nat, ds: seq<nat>, n: nat)
    requires InBase(a, ds) && a * |ds| == b * n
    ensures Digits(a, |ds|, Val(b, Digits(b, n, Val(a, ds)))) == ds
  {
    ValFits(a, ds);
    ValOfDigits(b, n, Val(a, ds));
    DigitsOfVal(a, ds);
  }

  // ----- the accumulator loop

  /** The `<<` of JavaScript: the low 32 bits, read as a signed number. */
  function ShiftLeft32(x: nat, k: nat): int { Signed32(x * Pow2(k)) }

  function Signed32(x: nat): int {
    var y := x % 0x1_0000_0000;
    if y >= 0x8000_0000 then y - 0x1_0000_0000 else y
  }

  lemma NoWrap(x: nat)
    requires x < 0x8000_0000
    ensures Signed32(x) == x
  {}

  /** What was read, as a number: the digits written, followed by `bits` bits in the accumulator. */
  ghost predicate Holds(v: nat, to: nat, out: seq<nat>, acc: nat, bits: nat) {
    v == Val(to, out) * Pow2(bits) + acc && acc < Pow2(bits)
  }

  lemma PushDigit(v: nat, from: nat, d: nat, to: nat, out: seq<nat>, acc: nat, bits: nat)
    requires Holds(v, to, out, acc, bits) && d < Pow2(from)
    ensures Holds(v * Pow2(from) + d, to, out, acc * Pow2(from) + d, bits + from)
  {
    Pow2Sum(bits, from);
    PushOn(v, Val(to, out), Pow2(bits), acc, Pow2(from), d);
  }

  lemma PushFits(acc: nat, bits: nat, from: nat)
    requires acc < Pow2(bits) && bits + from <= 31
    ensures ShiftLeft32(acc, from) == acc * Pow2(from)
  {
    Pow2Sum(bits, from);
    PushOn(acc, 0, Pow2(bits), acc, Pow2(from), 0);
    Pow2Monotone(bits + from, 31);
    Pow2Values();
    NoWrap(acc * Pow2(from));
  }

  lemma FitsSigned(acc: nat, bits: nat)
    requires acc < Pow2(bits) && bits <= 31
    ensures acc < 0x8000_0000
  {
    Pow2Monotone(bits, 31);
    Pow2Values();
  }

  lemma PushHolds(from: nat, digits: seq<nat>, i: nat, to: nat, out: seq<nat>, acc: nat, bits: nat)
    requires i < |digits| && digits[i] < Pow2(from) && Holds(Val(from, digits[..i]), to, out, acc, bits)
    ensures Holds(Val(from, digits[..i + 1]), to, out, acc * Pow2(from) + digits[i], bits + from)
  {
    PushDigit(Val(from, digits[..i]), from, digits[i], to, out, acc, bits);
    ValAppend(from, digits[..i], digits[i]);
    assert digits[..i + 1] == digits[..i] + [digits[i]];
  }

  lemma PushSmall(from: nat, acc: nat, bits: nat, next: nat)
    requires acc < Pow2(bits) && bits + from <= 31 && next < Pow2(bits + from)
    ensures next < 0x8000_0000 && ShiftLeft32(acc, from) == acc * Pow2(from)
  {
    PushFits(acc, bits, from);
    FitsSigned(next, bits + from);
  }

  /** One round of the outer loop: digit `i` enters the accumulator, which stays within 31 bits. */
  lemma PushStep(from: nat, digits: seq<nat>, i: nat, to: nat, out: seq<nat>, acc: nat, bits: nat)
    requires i < |digits| && digits[i] < Pow2(from) && bits + from <= 31
    requires Holds(Val(from, digits[..i]), to, out, acc, bits)
    ensures var next := ShiftLeft32(acc, from) + digits[i];
            0 <= next < 0x8000_0000 && Holds(Val(from, digits[..i + 1]), to, out, next, bits + from)
  {
    PushHolds(from, digits, i, to, out, acc, bits);
    PushSmall(from, acc, bits, acc * Pow2(from) + digits[i]);
  }

  lemma PopDigit(v: nat, to: nat, out: seq<nat>, acc: nat, bits: nat)
    requires Holds(v, to, out, acc, bits) && to <= bits
    ensures var low := Pow2(bits - to);
            Quotient(acc, low) < Pow2(to) && Holds(v, to, out + [Quotient(acc, low)], Remainder(acc, low), bits - to)
  {
    var low := Pow2(bits - to);
    Pow2Sum(to, bits - to);
    TakeOff(Val(to, out), Pow2(to), low, acc);
    ValAppend(to, out, Quotient(acc, low));
  }

  /** Masking a digit that fits changes nothing. */
  lemma MaskFits(d: nat, p: nat)
    requires d < p
    ensures Remainder(d, p) == d
  {
    DivUnique(d, p, 0, d);
  }

  /**
   The shared shape of `decodeRoomCapabilityBase64Url`, `bytesToWordIndexes` and `wordIndexesToBytes`:
   push a digit into the accumulator, then take out whole digits of the other width. The accumulator
   never leaves 31 bits, so the shift never wraps.
   */
  method Regroup(from: nat, to: nat, digits: seq<nat>) returns (out: seq<nat>, acc: nat, bits: nat)
    requires 1 <= from && 1 <= to && from + to <= 32 && InBase(from, digits)
    ensures InBase(to, out) && bits < to && Times(|out|, to) + bits == Times(|digits|, from)
    ensures Holds(Val(from, digits), to, out, acc, bits)
  {
    out, acc, bits := [], 0, 0;
    for i := 0 to |digits|
      invariant InBase(to, out) && bits < to && Times(|out|, to) + bits == Times(i, from)
      invariant Holds(Val(from, digits[..i]), to, out, acc, bits)
    {
      PushStep(from, digits, i, to, out, acc, bits);
      acc, bits := ShiftLeft32(acc, from) + digits[i], bits + from;
      out, acc, bits := PopDigits(Val(from, digits[..i + 1]), to, out, acc, bits);
    }
    assert digits[..|digits|] == digits;
  }

  /** The inner loop: whole digits leave the accumulator. */
  method PopDigits(ghost v: nat, to: nat, before: seq<nat>, acc0: nat, bits0: nat)
      returns (out: seq<nat>, acc: nat, bits: nat)
    requires 1 <= to && InBase(to, before) && Holds(v, to, before, acc0, bits0)
    ensures InBase(to, out) && Holds(v, to, out, acc, bits)
    ensures bits < to && Times(|out|, to) + bits == Times(|before|, to) + bits0
  {
    out, acc, bits := before, acc0, bits0;
    while bits >= to
      invariant InBase(to, out) && Holds(v, to, out, acc, bits)
          && Times(|out|, to) + bits == Times(|before|, to) + bits0
      decreases bits
    {
      PopDigit(v, to, out, acc, bits);
      bits := bits - to;
      MaskFits(Quotient(acc, Pow2(bits)), Pow2(to));
      out, acc := out + [Remainder(Quotient(acc, Pow2(bits)), Pow2(to))], Remainder(acc, Pow2(bits));
    }
  }
}
