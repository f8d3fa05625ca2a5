// Bit reversal in parallel steps and bit by bit (orpsocv2/bench/sysc/src/DebugUnitSC.cpp, bit_reverse_data).

module BitReverse {
  import opened Bits

  // The bits in every second group of 'm' bits: 0xaaaaaaaa and 0x55555555 for m == 1, and so on.
  function Groups(m: nat, upper: bool): (w: Word32)
    requires m > 0
  {
    seq(32, i requires 0 <= i < 32 => (i / m % 2 == 1) == upper)
  }

  // Neighbouring groups of 'm' bits are exchanged.
  function Exchange(x: Word32, m: nat): (w: Word32)
    requires m > 0
  {
    Or(Shr(And(x, Groups(m, true)), m), Shl(And(x, Groups(m, false)), m))
  }

  method Swar2(x: Word32) returns (r: Word32)
    ensures r == Swar(x, 2)
  {
    hide Exchange;
    r := Exchange(x, 1);
  }

  method Swar4(x: Word32) returns (r: Word32)
    ensures r == Swar(x, 4)
  {
    hide Exchange;
    r := Exchange(x, 1);
    r := Exchange(r, 2);
  }

  method Swar8(x: Word32) returns (r: Word32)
    ensures r == Swar(x, 8)
  {
    hide Exchange;
    r := Exchange(x, 1);
    r := Exchange(r, 2);
    assert r == Swar(x, 4);
    r := Exchange(r, 4);
  }

  method Swar16(x: Word32) returns (r: Word32)
    ensures r == Swar(x, 16)
  {
    hide Exchange;
    r := Exchange(x, 1);
    r := Exchange(r, 2);
    assert r == Swar(x, 4);
    r := Exchange(r, 4);
    assert r == Swar(x, 8);
    r := Exchange(r, 8);
  }

  method Swar32(x: Word32) returns (r: Word32)
    ensures r == Swar(x, 32)
  {
    hide Exchange;
    r := Exchange(x, 1);
    r := Exchange(r, 2);
    assert r == Swar(x, 4);
    r := Exchange(r, 4);
    assert r == Swar(x, 8);
    r := Exchange(r, 8);
    assert r == Swar(x, 16);
    r := Exchange(r, 16);
  }

  predicate Parallel(len: nat) {
    len == 2 || len == 4 || len == 8 || len == 16 || len == 32
  }

  // The result of the parallel reversal of 'len' bits.
  function Swar(x: Word32, len: nat): Word32
    requires Parallel(len)
  {
    if len == 2 then Exchange(x, 1) else Exchange(Swar(x, len / 2), len / 2)
  }

  // The reversal of the low 'len' bits.
  function Reversal(x: Word32, len: nat): Word32
    requires len <= 32
  {
    Rev(x[..len]) + Zeros(32 - len)
  }

  // 'x' is below 2^len.
  ghost predicate Below(x: Word32, len: nat) {
    forall i | len <= i < 32 :: !x[i]
  }

  method BitReverseData(data: Word32, length: nat) returns (r: Word32)
    requires length <= 32
    ensures Parallel(length) ==> r == Swar(data, length)
    ensures !Parallel(length) || Below(data, length) ==> r == Reversal(data, length)
    ensures r[..length] == Rev(data[..length])
  {
    LowBitsReversed(data, length);
    if length == 2 {
      r := Swar2(data);
    } else if length == 4 {
      r := Swar4(data);
    } else if length == 8 {
      r := Swar8(data);
    } else if length == 16 {
      r := Swar16(data);
    } else if length == 32 {
      r := Swar32(data);
    } else {
      r := ReverseBitByBit(data, length);
      return;
    }
    hide Swar, Reversal, Below;
    SwarIsReversalIff(data, length);
  }

  // The long and laborious way.
  method ReverseBitByBit(data: Word32, length: nat) returns (reverse: Word32)
    requires length <= 32
    ensures reverse == Reversal(data, length)
  {
    reverse := Zeros(32);
    for i := 0 to length
      invariant forall j | 0 <= j < 32 :: reverse[j] <==> length - i <= j < length && data[length - 1 - j]
    {
      BitMoved(data, i, length - 1 - i);
      hide And, Shr, Shl, One;
      reverse := Or(reverse, Shl(And(Shr(data, i), One(32)), length - 1 - i));
    }
  }

  lemma BitMoved(x: Word32, i: nat, k: nat)
    requires i < 32 && k < 32
    ensures forall j | 0 <= j < 32 :: Shl(And(Shr(x, i), One(32)), k)[j] <==> j == k && x[i]
  {}

  // ---------- Where the bits go ----------

  // The masks tell the lower from the upper group of each pair of groups.
  predicate Selects(m: nat, i: int)
    requires m > 0
  {
    0 <= i < 32 ==> !Groups(m, true)[i] && Groups(m, false)[i]
  }

  predicate SelectsUpper(m: nat, i: int)
    requires m > 0
  {
    0 <= i < 32 ==> Groups(m, true)[i] && !Groups(m, false)[i]
  }

  lemma SwarUnfolds(x: Word32)
    ensures Swar(x, 2) == Exchange(x, 1) && Swar(x, 4) == Exchange(Swar(x, 2), 2)
      && Swar(x, 8) == Exchange(Swar(x, 4), 4)
    ensures Swar(x, 16) == Exchange(Swar(x, 8), 8) && Swar(x, 32) == Exchange(Swar(x, 16), 16)
  {
    hide Exchange;
  }

  // The pair of groups at 'i' and 'i + m' changes places.
  lemma ExchangeAt(x: Word32, m: nat, i: nat)
    requires m > 0 && i + m < 32 && Selects(m, i) && SelectsUpper(m, i + m)
    requires Selects(m, i + 2 * m) && SelectsUpper(m, i - m)
    ensures Exchange(x, m)[i] == x[i + m]
    ensures Exchange(x, m)[i + m] == x[i]
  {
    hide Groups;
    var upper, lower := And(x, Groups(m, true)), And(x, Groups(m, false));
    assert upper[i + m] == x[i + m] && !upper[i] && lower[i] == x[i] && !lower[i + m];
    assert i + 2 * m < 32 ==> !upper[i + 2 * m];
    assert i >= m ==> !lower[i - m];
    ShiftedPair(upper, lower, m, i);
  }

  lemma ShiftedPair(upper: Word32, lower: Word32, m: nat, i: nat)
    requires m > 0 && i + m < 32 && !upper[i] && !lower[i + m]
    requires i + 2 * m < 32 ==> !upper[i + 2 * m]
    requires i >= m ==> !lower[i - m]
    ensures Or(Shr(upper, m), Shl(lower, m))[i] == upper[i + m]
    ensures Or(Shr(upper, m), Shl(lower, m))[i + m] == lower[i]
  {}

  lemma Groups1(q: nat, r: nat)
    requires r < 1 && 2 * q + r + 1 < 32
    ensures Selects(1, 2 * q + r) && SelectsUpper(1, 2 * q + r + 1)
    ensures Selects(1, 2 * q + r + 2)
    ensures SelectsUpper(1, 2 * q + r - 1)
  {
    assert (2 * q + r) / 1 == 2 * q;
  }

  lemma Swar2At(x: Word32, q: nat, r: nat)
    requires r < 2 && 2 * q + 1 < 32
    ensures Swar(x, 2)[2 * q + r] == x[2 * q + 1 - r]
  {
    var s := if r < 1 then r else r - 1;
    Groups1(q, s);
    SwarUnfolds(x);
    hide Swar, Exchange, Selects, SelectsUpper;
    ExchangeAt(x, 1, 2 * q + s);
  }

  lemma Groups2(q: nat, r: nat)
    requires r < 2 && 4 * q + r + 2 < 32
    ensures Selects(2, 4 * q + r) && SelectsUpper(2, 4 * q + r + 2)
    ensures Selects(2, 4 * q + r + 4)
    ensures SelectsUpper(2, 4 * q + r - 2)
  {
    assert (4 * q + r) / 2 == 2 * q;
  }

  lemma Swar4At(x: Word32, q: nat, r: nat)
    requires r < 4 && 4 * q + 3 < 32
    ensures Swar(x, 4)[4 * q + r] == x[4 * q + 3 - r]
  {
    hide Swar, Exchange, Selects, SelectsUpper;
    SwarUnfolds(x);
    if r < 2 {
      Swar2At(x, 2 * q + 1, r);
      Groups2(q, r);
      ExchangeAt(Swar(x, 2), 2, 4 * q + r);
    } else {
      Swar2At(x, 2 * q, r - 2);
      Groups2(q, r - 2);
      ExchangeAt(Swar(x, 2), 2, 4 * q + r - 2);
    }
  }

  lemma Groups4(q: nat, r: nat)
    requires r < 4 && 8 * q + r + 4 < 32
    ensures Selects(4, 8 * q + r) && SelectsUpper(4, 8 * q + r + 4)
    ensures Selects(4, 8 * q + r + 8)
    ensures SelectsUpper(4, 8 * q + r - 4)
  {
    assert (8 * q + r) / 4 == 2 * q;
  }

  lemma Swar8At(x: Word32, q: nat, r: nat)
    requires r < 8 && 8 * q + 7 < 32
    ensures Swar(x, 8)[8 * q + r] == x[8 * q + 7 - r]
  {
    hide Swar, Exchange, Selects, SelectsUpper;
    SwarUnfolds(x);
    if r < 4 {
      Swar4At(x, 2 * q + 1, r);
      Groups4(q, r);
      ExchangeAt(Swar(x, 4), 4, 8 * q + r);
    } else {
      Swar4At(x, 2 * q, r - 4);
      Groups4(q, r - 4);
      ExchangeAt(Swar(x, 4), 4, 8 * q + r - 4);
    }
  }

  lemma Groups8(q: nat, r: nat)
    requires r < 8 && 16 * q + r + 8 < 32
    ensures Selects(8, 16 * q + r) && SelectsUpper(8, 16 * q + r + 8)
    ensures Selects(8, 16 * q + r + 16)
    ensures SelectsUpper(8, 16 * q + r - 8)
  {
    assert (16 * q + r) / 8 == 2 * q;
  }

  lemma Swar16At(x: Word32, q: nat, r: nat)
    requires r < 16 && 16 * q + 15 < 32
    ensures Swar(x, 16)[16 * q + r] == x[16 * q + 15 - r]
  {
    hide Swar, Exchange, Selects, SelectsUpper;
    SwarUnfolds(x);
    if r < 8 {
      Swar8At(x, 2 * q + 1, r);
      Groups8(q, r);
      ExchangeAt(Swar(x, 8), 8, 16 * q + r);
    } else {
      Swar8At(x, 2 * q, r - 8);
      Groups8(q, r - 8);
      ExchangeAt(Swar(x, 8), 8, 16 * q + r - 8);
    }
  }

  lemma Groups16(q: nat, r: nat)
    requires r < 16 && 32 * q + r + 16 < 32
    ensures Selects(16, 32 * q + r) && SelectsUpper(16, 32 * q + r + 16)
    ensures Selects(16, 32 * q + r + 32)
    ensures SelectsUpper(16, 32 * q + r - 16)
  {
    assert (32 * q + r) / 16 == 2 * q;
  }

  lemma Swar32At(x: Word32, q: nat, r: nat)
    requires r < 32 && 32 * q + 31 < 32
    ensures Swar(x, 32)[32 * q + r] == x[32 * q + 31 - r]
  {
    hide Swar, Exchange, Selects, SelectsUpper;
    SwarUnfolds(x);
    if r < 16 {
      Swar16At(x, 2 * q + 1, r);
      Groups16(q, r);
      ExchangeAt(Swar(x, 16), 16, 32 * q + r);
    } else {
      Swar16At(x, 2 * q, r - 16);
      Groups16(q, r - 16);
      ExchangeAt(Swar(x, 16), 16, 32 * q + r - 16);
    }
  }

  // The position of bit 'i' in its reversed group of 'len' bits.
  function Mirror(i: nat, len: nat): int
    requires len > 0
  {
    i + len - 1 - 2 * (i % len)
  }

  lemma SwarAt(x: Word32, len: nat, i: nat)
    requires Parallel(len) && i < 32
    ensures var j := Mirror(i, len);
      0 <= j < 32 && Mirror(j, len) == i && Swar(x, len)[i] == x[j] && (if i < len then j == len - 1 - i else j >= len)
  {
    hide Swar;
    if len == 2 {
      SwarAt2(x, i);
    } else if len == 4 {
      SwarAt4(x, i);
    } else if len == 8 {
      SwarAt8(x, i);
    } else if len == 16 {
      SwarAt16(x, i);
    } else {
      SwarAt32(x, i);
    }
  }

  lemma MirrorInPair(i: nat)
    ensures var j := Mirror(i, 2);
      j >= 0 && Mirror(j, 2) == i && j == 2 * (i / 2) + 1 - i % 2 && (if i < 2 then j == 1 - i else j >= 2)
  {
    if i % 2 == 0 {
      assert (i + 1) % 2 == 1;
    } else {
      assert (i - 1) % 2 == 0;
    }
  }

  lemma SwarAt2(x: Word32, i: nat)
    requires i < 32
    ensures var j := Mirror(i, 2);
      0 <= j < 32 && Mirror(j, 2) == i && Swar(x, 2)[i] == x[j] && (if i < 2 then j == 1 - i else j >= 2)
  {
    MirrorInPair(i);
    hide Swar, Mirror;
    Swar2At(x, i / 2, i % 2);
  }

  lemma SwarAt4(x: Word32, i: nat)
    requires i < 32
    ensures var j := Mirror(i, 4);
      0 <= j < 32 && Mirror(j, 4) == i && Swar(x, 4)[i] == x[j] && (if i < 4 then j == 3 - i else j >= 4)
  {
    hide Swar;
    var q, r := i / 4, i % 4;
    Swar4At(x, q, r);
    assert Mirror(i, 4) == 4 * q + 3 - r;
  }

  lemma SwarAt8(x: Word32, i: nat)
    requires i < 32
    ensures var j := Mirror(i, 8);
      0 <= j < 32 && Mirror(j, 8) == i && Swar(x, 8)[i] == x[j] && (if i < 8 then j == 7 - i else j >= 8)
  {
    hide Swar;
    var q, r := i / 8, i % 8;
    Swar8At(x, q, r);
    assert Mirror(i, 8) == 8 * q + 7 - r;
  }

  lemma SwarAt16(x: Word32, i: nat)
    requires i < 32
    ensures var j := Mirror(i, 16);
      0 <= j < 32 && Mirror(j, 16) == i && Swar(x, 16)[i] == x[j] && (if i < 16 then j == 15 - i else j >= 16)
  {
    hide Swar;
    var q, r := i / 16, i % 16;
    Swar16At(x, q, r);
    assert Mirror(i, 16) == 16 * q + 15 - r;
  }

  lemma SwarAt32(x: Word32, i: nat)
    requires i < 32
    ensures var j := Mirror(i, 32);
      0 <= j < 32 && Mirror(j, 32) == i && Swar(x, 32)[i] == x[j] && (if i < 32 then j == 31 - i else j >= 32)
  {
    hide Swar;
    var q, r := i / 32, i % 32;
    Swar32At(x, q, r);
    assert Mirror(i, 32) == 32 * q + 31 - r;
  }

  // The parallel reversal is its own inverse on all words.
  lemma SwarTwice(x: Word32, len: nat)
    requires Parallel(len)
    ensures Swar(Swar(x, len), len) == x
  {
    hide Mirror, Swar;
    forall i: nat | i < 32
      ensures Swar(Swar(x, len), len)[i] == x[i]
    {
      SwarAt(Swar(x, len), len, i);
      SwarAt(x, len, Mirror(i, len));
    }
  }

  // It agrees with the reversal bit by bit exactly on the values below 2^len.
  lemma SwarIsReversalIff(x: Word32, len: nat)
    requires Parallel(len)
    ensures Swar(x, len) == Reversal(x, len) <==> Below(x, len)
  {
    hide Mirror, Swar;
    forall i: nat | i < 32
      ensures 0 <= Mirror(i, len) < 32 && Mirror(Mirror(i, len), len) == i
      ensures Swar(x, len)[i] == x[Mirror(i, len)]
      ensures if i < len then Mirror(i, len) == len - 1 - i else Mirror(i, len) >= len
    {
      SwarAt(x, len, i);
    }
    if Below(x, len) {
      assert forall i: nat | i < 32 :: Swar(x, len)[i] == Reversal(x, len)[i];
    } else {
      var i :| len <= i < 32 && x[i];
      assert Swar(x, len)[Mirror(i, len)] && !Reversal(x, len)[Mirror(i, len)];
    }
  }

  // The low bits of a reversal are the low bits of the argument in reverse order, whatever is above them.
  lemma LowBitsReversed(x: Word32, len: nat)
    requires len <= 32
    ensures Reversal(x, len)[..len] == Rev(x[..len])
    ensures Parallel(len) ==> Swar(x, len)[..len] == Rev(x[..len])
  {
    hide Swar;
    if Parallel(len) {
      forall i: nat | i < len
        ensures Swar(x, len)[i] == x[len - 1 - i]
      {
        SwarAt(x, len, i);
      }
    }
  }
}
