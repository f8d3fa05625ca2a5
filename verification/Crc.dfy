// The bit-serial CRC of the debug unit (orpsocv2/bench/sysc/src/DebugUnitSC.cpp, crc32) and what it detects. The
// generator polynomial is that of section 3.2.9 of IEEE 802.3-2012; all ones are preloaded and the result is not
// complemented.

module Crc {
  import opened Bits

  // DBG_CRC32_POLY == 0x04c11db7
  predicate PolyBit(i: nat) {
    (i == 0 || i == 1 || i == 2 || i == 4 || i == 5 || i == 7 || i == 8 || i == 10 || i == 11 || i == 12 || i == 16
     || i == 22 || i == 23 || i == 26)
  }

  function Poly(): (w: Word32) {
    seq(32, i requires 0 <= i < 32 => PolyBit(i))
  }

  function Ones(): Word32 {
    seq(32, _ => true)
  }

  function Zero(): Word32 {
    Zeros(32)
  }

  function Step(crc: Word32, b: bool): Word32 {
    Xor(Shl(crc, 1), if b != crc[31] then Poly() else Zero())
  }

  function Fold(crc: Word32, bits: seq<bool>): Word32
    decreases |bits|
  {
    if bits == [] then crc else Fold(Step(crc, bits[0]), bits[1..])
  }

  function CrcOf(bits: seq<bool>): Word32 {
    Fold(Ones(), bits)
  }

  lemma {:induction false} FoldAppend(crc: Word32, x: seq<bool>, y: seq<bool>)
    ensures Fold(crc, x + y) == Fold(Fold(crc, x), y)
    decreases |x|
  {
    hide Step;
    if x == [] {
      assert x + y == y;
    } else {
      assert (x + y)[1..] == x[1..] + y;
      FoldAppend(Step(crc, x[0]), x[1..], y);
    }
  }

  // ---------- Residue ----------

  // The bits 'f' are the highest bits of 'crc', the top one first, and the bits below are zero.
  ghost predicate Cancels(crc: Word32, f: seq<bool>) {
    && |f| <= 32
    && (forall i | 0 <= i < |f| :: f[i] == crc[31 - i])
    && (forall j | 0 <= j < 32 - |f| :: !crc[j])
  }

  lemma StepCancels(crc: Word32, f: seq<bool>)
    requires 0 < |f| <= 32
    ensures Cancels(crc, f) <==> Cancels(Step(crc, f[0]), f[1..])
  {
    var c, t := Step(crc, f[0]), f[1..];
    assert c[0] == (f[0] != crc[31]);
    if f[0] == crc[31] {
      Shifted(crc, f[0]);
      hide Step;
      assert forall i | 0 <= i < |t| :: t[i] == f[i + 1];
      assert forall i | 0 < i < |f| :: f[i] == t[i - 1];
    } else {
      assert c[0] && f[0] != crc[31 - 0];
    }
  }

  // No feedback: the register is shifted.
  lemma Shifted(crc: Word32, b: bool)
    requires b == crc[31]
    ensures !Step(crc, b)[0]
    ensures forall j | 0 <= j < 31 :: Step(crc, b)[j + 1] == crc[j]
    ensures forall j | 0 < j < 32 :: Step(crc, b)[j] == crc[j - 1]
  {}

  // At most 32 bits take the register to zero exactly when they are its highest bits and the rest is zero.
  lemma {:induction false} ZeroIffCancels(crc: Word32, f: seq<bool>)
    requires |f| <= 32
    ensures Fold(crc, f) == Zero() <==> Cancels(crc, f)
    decreases |f|
  {
    hide Step;
    if f != [] {
      StepCancels(crc, f[..]);
      assert f[..] == f;
      ZeroIffCancels(Step(crc, f[0]), f[1..]);
    } else {
      hide Fold;
      assert Fold(crc, []) == crc by { FoldNone(crc); }
    }
  }

  lemma FoldNone(crc: Word32)
    ensures Fold(crc, []) == crc
  {}

  // A frame with its CRC field has residue zero exactly when the field is the bit-reversed CRC of the payload.
  lemma ResidueIff(payload: seq<bool>, field: seq<bool>)
    requires |field| == 32
    ensures CrcOf(payload + field) == Zero() <==> field == Rev(CrcOf(payload))
  {
    FoldAppend(Ones(), payload, field);
    ZeroIffCancels(CrcOf(payload), field);
  }

  // ---------- The remainder ----------

  function Digit(b: bool): nat {
    if b then 1 else 0
  }

  lemma Peel(w: seq<bool>, k: nat)
    requires k < |w|
    ensures ToNat(w[k..]) == Digit(w[k]) + 2 * ToNat(w[k + 1..])
  {
    assert w[k..][1..] == w[k + 1..];
  }

  lemma HexDigit(k: nat)
    requires k + 4 <= 32
    ensures ToNat(Poly()[k..]) == Digit(PolyBit(k)) + 2 * Digit(PolyBit(k + 1)) + 4 * Digit(PolyBit(k + 2))
      + 8 * Digit(PolyBit(k + 3)) + 16 * ToNat(Poly()[k + 4..])
  {
    var w: seq<bool> := Poly();
    Peel(w, k);
    Peel(w, k + 1);
    Peel(w, k + 2);
    Peel(w, k + 3);
    hide ToNat, PolyBit;
  }

  // The polynomial as the number that the standard gives for it, the term of degree 32 left out.
  lemma PolyIsStandard()
    ensures ToNat(Poly()) == 0x04c11db7
  {
    PolyUpperHalf();
    assert Poly()[0..] == Poly();
    hide ToNat, Poly;
    HexDigit(12); HexDigit(8); HexDigit(4); HexDigit(0);
  }

  lemma PolyUpperHalf()
    ensures ToNat(Poly()[16..]) == 0x04c1
  {
    assert Poly()[32..] == [];
    assert ToNat(Poly()[32..]) == 0;
    hide ToNat, Poly;
    HexDigit(28); HexDigit(24); HexDigit(20); HexDigit(16);
  }

  // The generator, the term of degree 32 included, or nothing.
  function Feedback(f: bool): (g: seq<bool>)
    ensures |g| == 33
  {
    if f then Poly() + [true] else Zeros(33)
  }

  // 'q' times the generator, as polynomials with coefficients modulo 2, that of degree 0 first: a copy of the generator
  // for each term of 'q', shifted by its degree.
  function TimesGenerator(q: seq<bool>): (r: seq<bool>)
    ensures |r| == |q| + 32
  {
    if q == [] then Zeros(32)
    else
      var n := |q| - 1;
      Xor(TimesGenerator(q[..n]) + [false], Zeros(n) + Feedback(q[n]))
  }

  // The message, its first bit being the highest coefficient, times x^32, plus the register times x^|bits|.
  function Dividend(crc: Word32, bits: seq<bool>): (r: seq<bool>)
    ensures |r| == |bits| + 32
  {
    Xor(Zeros(|bits|) + crc, Zeros(32) + Rev(bits))
  }

  // One bit: the register times x, with the bit, is the next register, plus the generator if there is feedback.
  lemma StepDivides(crc: Word32, b: bool, k: nat)
    requires k < 33
    ensures var f := b != crc[31];
      (if k > 0 then crc[k - 1] else false) == ((if k < 32 then Step(crc, b)[k] else b)
        != Feedback(f)[k])
  {
    hide PolyBit;
  }

  lemma DividendBit(crc: Word32, bits: seq<bool>, k: nat)
    requires k < |bits| + 32
    ensures Dividend(crc, bits)[k] ==
      ((k >= |bits| && crc[k - |bits|]) != (k >= 32 && bits[|bits| + 31 - k]))
  {}

  lemma ProductBit(p: seq<bool>, f: bool, k: nat)
    requires k < |p| + 33
    ensures TimesGenerator(p + [f])[k] == ((k < |p| + 32 && TimesGenerator(p)[k])
      != (k >= |p| && Feedback(f)[k - |p|]))
  {
    var q := p + [f];
    assert q[..|p|] == p;
    hide Poly;
  }

  lemma SumBit(q: seq<bool>, f: Word32, k: nat)
    requires k < |q| + 32
    ensures Xor(TimesGenerator(q), f + Zeros(|q|))[k] == (TimesGenerator(q)[k] != (k < 32 && f[k]))
  {}

  // One bit of the message adds a shifted generator to the dividend.
  lemma DividendStep(crc: Word32, bits: seq<bool>, k: nat)
    requires bits != [] && k < |bits| + 32
    ensures var c, y := Step(crc, bits[0]), bits[1..];
      Dividend(crc, bits)[k] == ((k < |y| + 32 && Dividend(c, y)[k])
        != (k >= |y| && Feedback(bits[0] != crc[31])[k - |y|]))
  {
    var b, y, c := bits[0], bits[1..], Step(crc, bits[0]);
    hide Step, Poly, Dividend;
    DividendBit(crc, bits, k);
    if k < |y| + 32 {
      DividendBit(c, y, k);
    }
    if k >= |y| {
      StepDivides(crc, b, k - |y|);
    }
  }

  lemma RemainderBit(crc: Word32, bits: seq<bool>, p: seq<bool>, r: Word32, k: nat)
    requires bits != [] && k < |bits| + 32 && |p| == |bits| - 1
    requires k < |p| + 32 ==> Dividend(Step(crc, bits[0]), bits[1..])[k] == (TimesGenerator(p)[k] != (k < 32 && r[k]))
    ensures Dividend(crc, bits)[k] == (TimesGenerator(p + [bits[0] != crc[31]])[k] != (k < 32 && r[k]))
  {
    hide Step, Feedback, TimesGenerator, Dividend;
    DividendStep(crc, bits, k);
    ProductBit(p, bits[0] != crc[31], k);
  }

  lemma RemainderNext(crc: Word32, bits: seq<bool>, p: seq<bool>, r: Word32)
    requires bits != [] && |p| == |bits| - 1
    requires Dividend(Step(crc, bits[0]), bits[1..]) == Xor(TimesGenerator(p), r + Zeros(|p|))
    ensures Dividend(crc, bits) == Xor(TimesGenerator(p + [bits[0] != crc[31]]), r + Zeros(|bits|))
  {
    var q := p + [bits[0] != crc[31]];
    hide Step, TimesGenerator, Dividend;
    forall k | 0 <= k < |bits| + 32
      ensures Dividend(crc, bits)[k] == Xor(TimesGenerator(q), r + Zeros(|bits|))[k]
    {
      SumBit(q, r, k);
      if k < |p| + 32 {
        SumBit(p, r, k);
      }
      RemainderBit(crc, bits, p, r, k);
    }
  }

  lemma FoldFirst(crc: Word32, bits: seq<bool>)
    requires bits != []
    ensures Fold(crc, bits) == Fold(Step(crc, bits[0]), bits[1..])
  {}

  // The register after the message is the remainder of their division by the generator.
  lemma {:induction false} FoldIsRemainder(crc: Word32, bits: seq<bool>) returns (q: seq<bool>)
    ensures |q| == |bits| && Dividend(crc, bits) == Xor(TimesGenerator(q), Fold(crc, bits) + Zeros(|bits|))
    decreases |bits|
  {
    if bits == [] {
      q := [];
      FoldNone(crc);
    } else {
      var p := FoldIsRemainder(Step(crc, bits[0]), bits[1..]);
      q := p + [bits[0] != crc[31]];
      FoldFirst(crc, bits);
      hide Step, Fold, TimesGenerator, Dividend;
      RemainderNext(crc, bits, p, Fold(crc, bits));
    }
  }

  // So the checksum of a message is the remainder of the message times x^32, plus the preloaded ones times x^|bits|.
  lemma CrcIsRemainder(bits: seq<bool>) returns (q: seq<bool>)
    ensures |q| == |bits|
    ensures Xor(Zeros(|bits|) + seq(32, _ => true), Zeros(32) + Rev(bits)) ==
      Xor(TimesGenerator(q), CrcOf(bits) + Zeros(|bits|))
  {
    q := FoldIsRemainder(Ones(), bits);
  }

  // ---------- Error detection ----------

  lemma StepLinear(a: Word32, b: Word32, x: bool, y: bool)
    ensures Step(Xor(a, b), x != y) == Xor(Step(a, x), Step(b, y))
  {
    hide PolyBit;
  }

  lemma {:induction false} FoldLinear(a: Word32, b: Word32, x: seq<bool>, y: seq<bool>)
    requires |x| == |y|
    ensures Fold(Xor(a, b), Xor(x, y)) == Xor(Fold(a, x), Fold(b, y))
    decreases |x|
  {
    if x != [] {
      StepLinear(a, b, x[0], y[0]);
      hide Step;
      FoldLinear(Step(a, x[0]), Step(b, y[0]), x[1..], y[1..]);
      assert Xor(x, y)[1..] == Xor(x[1..], y[1..]);
    }
  }

  lemma StepZero(crc: Word32)
    ensures Step(crc, false) == Zero() <==> crc == Zero()
  {
    FoldOne(crc);
    ZeroIffCancels(crc, [false]);
    assert crc == Zero() <==> Cancels(crc, [false]);
  }

  lemma FoldOne(crc: Word32)
    ensures Fold(crc, [false]) == Step(crc, false)
  {
    FoldNone(Step(crc, false));
  }

  // Zeros keep a zero register zero, and others different from zero.
  lemma {:induction false} FoldZeros(crc: Word32, n: nat)
    ensures Fold(crc, Zeros(n)) == Zero() <==> crc == Zero()
    decreases n
  {
    if n > 0 {
      StepZero(crc);
      hide Step;
      FoldZeros(Step(crc, false), n - 1);
      assert Zeros(n)[1..] == Zeros(n - 1) && !Zeros(n)[0];
    } else {
      FoldNone(crc);
    }
  }

  // A line that is stuck at zero is noticed: no frame of zeros has residue zero.
  lemma ZerosFail(n: nat)
    ensures CrcOf(Zeros(n)) != Zero()
  {
    FoldZeros(Ones(), n);
    assert Ones()[0] && !Zero()[0];
  }

  // A frame of zeros around at most 32 bits leaves a zero register zero only if these are zeros, too.
  lemma FoldWindow(p: nat, b: seq<bool>, r: nat)
    requires |b| <= 32 && Fold(Zero(), Zeros(p) + (b + Zeros(r))) == Zero()
    ensures Cancels(Zero(), b)
  {
    FoldAppend(Zero(), Zeros(p), b + Zeros(r));
    FoldZeros(Zero(), p);
    FoldAppend(Zero(), b, Zeros(r));
    FoldZeros(Fold(Zero(), b), r);
    ZeroIffCancels(Zero(), b);
  }

  // Two frames of the same length that pass the check and differ at most within 32 consecutive bits are equal: every
  // error burst of up to 32 bits is detected, and so is every single-bit error.
  lemma BurstDetected(x: seq<bool>, y: seq<bool>, p: nat, n: nat)
    requires |x| == |y| && CrcOf(x) == Zero() && CrcOf(y) == Zero()
    requires n <= 32 && p + n <= |x|
    requires forall k | 0 <= k < |x| && !(p <= k < p + n) :: x[k] == y[k]
    ensures x == y
  {
    var e := Xor(x, y);
    var b := e[p..p + n];
    FoldLinear(Ones(), Ones(), x, y);
    assert Xor(Ones(), Ones()) == Zero() && Xor(Zero(), Zero()) == Zero();
    assert e == Zeros(p) + (b + Zeros(|x| - p - n));
    FoldWindow(p, b, |x| - p - n);
    hide Fold;
    forall k | 0 <= k < |x|
      ensures x[k] == y[k]
    {
      if p <= k < p + n {
        assert !b[k - p] && b[k - p] == e[k];
      }
    }
  }

  // An error of 33 bits in the pattern of the generator polynomial.
  function PolyBurst(p: nat, q: nat): (e: seq<bool>)
    ensures |e| == p + 33 + q
  {
    Zeros(p) + ([true] + Rev(Poly()) + Zeros(q))
  }

  lemma PolyBurstCancels(p: nat, q: nat)
    ensures Fold(Zero(), PolyBurst(p, q)) == Zero()
  {
    var b := [true] + Rev(Poly());
    FoldZeros(Zero(), p);
    FoldAppend(Zero(), Zeros(p), b + Zeros(q));
    FoldAppend(Zero(), b, Zeros(q));
    FoldZeros(Zero(), q);
    BurstCancels(b);
  }

  lemma BurstCancels(b: seq<bool>)
    requires b == [true] + Rev(Poly())
    ensures Fold(Zero(), b) == Zero()
  {
    assert Step(Zero(), true) == Poly();
    ZeroIffCancels(Poly(), Rev(Poly()));
    assert b[1..] == Rev(Poly());
    hide Step;
  }

  // Such a burst is missed by every frame, so 32 bits is the exact bound.
  lemma BurstOf33Missed(x: seq<bool>, p: nat)
    requires CrcOf(x) == Zero() && p + 33 <= |x|
    ensures var y := Xor(x, PolyBurst(p, |x| - p - 33)); y != x && CrcOf(y) == Zero()
  {
    var e := PolyBurst(p, |x| - p - 33);
    var y := Xor(x, e);
    assert e[p] && y[p] != x[p];
    assert Xor(Ones(), Zero()) == Ones() && Xor(Zero(), Zero()) == Zero();
    hide Fold, PolyBurst, Xor;
    PolyBurstCancels(p, |x| - p - 33);
    FoldLinear(Ones(), Zero(), x, e);
  }
}
