// Machine words as sequences of bits, bit 0 first, with the operators of C on unsigned words.

module Bits {
  import Address

  type Word64 = w: seq<bool> | |w| == 64 witness seq(64, _ => false)
  type Word32 = w: seq<bool> | |w| == 32 witness seq(32, _ => false)

  function Zeros(n: nat): (w: seq<bool>)
    ensures |w| == n && forall i | 0 <= i < n :: !w[i]
  {
    seq(n, _ => false)
  }

  function And(a: seq<bool>, b: seq<bool>): (w: seq<bool>)
    requires |a| == |b|
    ensures |w| == |a|
  {
    seq(|a|, i requires 0 <= i < |a| => a[i] && b[i])
  }

  function Or(a: seq<bool>, b: seq<bool>): (w: seq<bool>)
    requires |a| == |b|
    ensures |w| == |a|
  {
    seq(|a|, i requires 0 <= i < |a| => a[i] || b[i])
  }

  function Xor(a: seq<bool>, b: seq<bool>): (w: seq<bool>)
    requires |a| == |b|
    ensures |w| == |a|
  {
    seq(|a|, i requires 0 <= i < |a| => a[i] != b[i])
  }

  function Not(a: seq<bool>): (w: seq<bool>)
    ensures |w| == |a|
  {
    seq(|a|, i requires 0 <= i < |a| => !a[i])
  }

  // a << n
  function Shl(a: seq<bool>, n: nat): (w: seq<bool>)
    ensures |w| == |a|
  {
    seq(|a|, i requires 0 <= i < |a| => i >= n && a[i - n])
  }

  // a >> n
  function Shr(a: seq<bool>, n: nat): (w: seq<bool>)
    ensures |w| == |a|
  {
    seq(|a|, i requires 0 <= i < |a| => i + n < |a| && a[i + n])
  }

  // a - 1: the borrow runs through the zeros at the bottom.
  function Dec(a: seq<bool>): (w: seq<bool>)
    ensures |w| == |a|
  {
    seq(|a|, i requires 0 <= i < |a| => a[i] != (forall j | 0 <= j < i :: !a[j]))
  }

  function One(n: nat): (w: seq<bool>)
    ensures |w| == n
  {
    seq(n, i => i == 0)
  }

  // (1 << n) - 1
  function LowMask(width: nat, n: nat): (w: seq<bool>)
    ensures |w| == width
  {
    Dec(Shl(One(width), n))
  }

  lemma LowMaskBits(width: nat, n: nat)
    requires n < width
    ensures forall i | 0 <= i < width :: LowMask(width, n)[i] <==> i < n
  {
    var p := Shl(One(width), n);
    assert forall i | 0 <= i < width :: p[i] <==> i == n;
    assert p[n];
  }

  // ---------- The number that a word stands for ----------

  function ToNat(w: seq<bool>): nat {
    if w == [] then 0 else (if w[0] then 1 else 0) + 2 * ToNat(w[1..])
  }

  function Pow2(n: nat): (p: nat)
    ensures p > 0
  {
    if n == 0 then 1 else 2 * Pow2(n - 1)
  }

  lemma {:induction false} ToNatBound(w: seq<bool>)
    ensures ToNat(w) < Pow2(|w|)
  {
    if w != [] {
      ToNatBound(w[1..]);
    }
  }

  lemma Doubled(p: nat, t: nat)
    ensures 2 * (p * t) == (2 * p) * t
  {}

  lemma {:induction false} ToNatSplit(w: seq<bool>, n: nat)
    requires n <= |w|
    ensures ToNat(w) == ToNat(w[..n]) + Pow2(n) * ToNat(w[n..])
  {
    if n == 0 {
      assert w[0..] == w;
    } else {
      var t, p, high := w[1..], Pow2(n - 1), ToNat(w[n..]);
      ToNatSplit(t, n - 1);
      assert t[..n - 1] == w[..n][1..] && t[n - 1..] == w[n..];
      Doubled(p, high);
      Head(w, n);
    }
  }

  lemma Head(w: seq<bool>, n: nat)
    requires 0 < n <= |w|
    ensures ToNat(w) == (if w[0] then 1 else 0) + 2 * ToNat(w[1..])
    ensures ToNat(w[..n]) == (if w[0] then 1 else 0) + 2 * ToNat(w[..n][1..])
  {}

  lemma {:induction false} ToNatZeros(n: nat)
    ensures ToNat(Zeros(n)) == 0
  {
    if n > 0 {
      ToNatZeros(n - 1);
      assert Zeros(n)[1..] == Zeros(n - 1);
    }
  }

  lemma {:induction false} ToNatPadded(w: seq<bool>, m: nat)
    ensures ToNat(w + Zeros(m)) == ToNat(w)
  {
    if w == [] {
      assert w + Zeros(m) == Zeros(m);
      ToNatZeros(m);
    } else {
      assert (w + Zeros(m))[1..] == w[1..] + Zeros(m);
      ToNatPadded(w[1..], m);
    }
  }

  // Keeping the low 'n' bits is taking the value modulo 2^n.
  lemma LowBitsAreModulo(w: seq<bool>, n: nat, m: nat)
    requires n <= |w|
    ensures ToNat(w[..n] + Zeros(m)) == ToNat(w) % Pow2(n)
  {
    ToNatPadded(w[..n], m);
    ToNatSplit(w, n);
    ToNatBound(w[..n]);
    RemainderOf(ToNat(w), ToNat(w[n..]), ToNat(w[..n]), Pow2(n));
  }

  lemma RemainderOf(x: nat, q: nat, r: nat, p: nat)
    requires r < p && x == r + p * q
    ensures x % p == r
  {
    Address.DivModOf(q, r, p);
  }

  // ---------- Reversal ----------

  function Rev(w: seq<bool>): (r: seq<bool>)
    ensures |r| == |w| && forall i | 0 <= i < |w| :: r[i] == w[|w| - 1 - i]
  {
    seq(|w|, i requires 0 <= i < |w| => w[|w| - 1 - i])
  }
}
