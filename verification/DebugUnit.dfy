// The bit fields, bit reversals, CRC and frames of the JTAG debug unit (orpsocv2/bench/sysc/src/DebugUnitSC.cpp).

module DebugUnit {
  import opened Bits
  import opened BitReverse
  import opened Crc

  // The bits of a data register, word after word.
  function Flat(reg: seq<Word64>): (bits: seq<bool>)
    ensures |bits| == 64 * |reg|
  {
    seq(64 * |reg|, i requires 0 <= i < 64 * |reg| => reg[i / 64][i % 64])
  }

  // The bits of a register after the low 'n' bits of 'val' have been put at 'off'.
  function Packed(bits: seq<bool>, off: nat, n: nat, val: Word64): (r: seq<bool>)
    requires n <= 64 && off + n <= |bits|
    ensures |r| == |bits|
  {
    bits[..off] + val[..n] + bits[off + n..]
  }

  // What unpacking yields after packing, and that nothing else changes.
  lemma PackUnpack(bits: seq<bool>, off: nat, n: nat, val: Word64, off': nat, n': nat)
    requires n <= 64 && off + n <= |bits| && n' <= 64 && off' + n' <= |bits|
    ensures var r := Packed(bits, off, n, val)[off'..off' + n'];
      && (off' == off && n' == n ==> r == val[..n])
      && (off' + n' <= off || off + n <= off' ==> r == bits[off'..off' + n'])
  {
    var p := Packed(bits, off, n, val);
    assert p[off..off + n] == val[..n];
    assert off + n <= off' ==> p[off'..off' + n'] == bits[off'..off' + n'];
    assert off' + n' <= off ==> p[off'..off' + n'] == bits[off'..off' + n'];
  }

  // As numbers: the value modulo 2^n.
  lemma PackUnpackModulo(bits: seq<bool>, off: nat, n: nat, val: Word64)
    requires n <= 64 && off + n <= |bits|
    ensures ToNat(Packed(bits, off, n, val)[off..off + n] + Zeros(64 - n)) == ToNat(val) % Pow2(n)
  {
    PackUnpack(bits, off, n, val, off, n);
    LowBitsAreModulo(val, n, 64 - n);
  }

  // ---------- Fields ----------

  // The bits of one word, with 'val' shifted to 'off' under its mask.
  lemma StartWordBits(w: Word64, w': Word64, val: Word64, off: nat, n: nat)
    requires 1 <= n <= 63 && off < 64
    requires w' == Or(And(w, Not(Shl(LowMask(64, n), off))), Shl(And(val, LowMask(64, n)), off))
    ensures forall i | 0 <= i < 64 :: w'[i] == if off <= i < off + n then val[i - off] else w[i]
  {
    LowMaskBits(64, n);
    hide LowMask;
  }

  lemma EndWordBits(w: Word64, w': Word64, val: Word64, n: nat, k: nat)
    requires 1 <= n <= 63 && k < n
    requires w' == Or(And(w, Not(LowMask(64, k))), Shr(And(val, LowMask(64, n)), n - k))
    ensures forall i | 0 <= i < 64 :: w'[i] == if i < k then val[i + n - k] else w[i]
  {
    LowMaskBits(64, n);
    LowMaskBits(64, k);
    hide LowMask;
    var v, u := And(val, LowMask(64, n)), And(w, Not(LowMask(64, k)));
    var s := Shr(v, n - k);
    forall i | 0 <= i < 64
      ensures s[i] == (i < k && val[i + n - k])
    {
      var j := i + (n - k);
      assert s[i] == (j < 64 && v[j]);
    }
    assert forall i | 0 <= i < 64 :: u[i] == (w[i] && i >= k);
    hide Shr;
    assert forall i | 0 <= i < 64 :: w'[i] == (u[i] || s[i]);
  }

  // A bit of the register after packing, word by word.
  ghost predicate WordPacked(old': seq<Word64>, new': seq<Word64>, k: nat, off: nat, n: nat, val: Word64)
    requires k < |old'| == |new'| && n <= 64
  {
    forall i | 0 <= i < 64 :: new'[k][i] == if off <= 64 * k + i < off + n then val[64 * k + i - off] else old'[k][i]
  }

  lemma AllPacked(old': seq<Word64>, new': seq<Word64>, off: nat, n: nat, val: Word64)
    requires n <= 64 && |old'| == |new'| && off + n <= 64 * |old'|
    requires forall k | 0 <= k < |old'| :: WordPacked(old', new', k, off, n, val)
    ensures Flat(new') == Packed(Flat(old'), off, n, val)
  {
    var f, p := Flat(new'), Packed(Flat(old'), off, n, val);
    forall i | 0 <= i < |f|
      ensures f[i] == p[i]
    {
      assert WordPacked(old', new', i / 64, off, n, val);
      assert f[i] == new'[i / 64][i % 64] && 64 * (i / 64) + i % 64 == i;
    }
  }

  // The start word and, if the field crosses a word boundary, the end word hold the field.
  lemma WordsPacked(before: seq<Word64>, after: seq<Word64>, off: nat, n: nat, val: Word64)
    requires 1 <= n <= 63 && |before| == |after| && off + n <= 64 * |before|
    requires forall k | 0 <= k < |before| && k != off / 64 && k != (off + n - 1) / 64 :: after[k] == before[k]
    requires var o := off % 64; forall i | 0 <= i < 64 ::
      after[off / 64][i] == if o <= i < o + n then val[i - o] else before[off / 64][i]
    requires off / 64 != (off + n - 1) / 64 ==> var e, m := (off + n - 1) / 64, (off % 64 + n) % 64;
      m < n && forall i | 0 <= i < 64 :: after[e][i] == if i < m then val[i + n - m] else before[e][i]
    ensures Flat(after) == Packed(Flat(before), off, n, val)
  {
    hide Flat, Packed;
    forall k | 0 <= k < |before|
      ensures WordPacked(before, after, k, off, n, val)
    {
    }
    AllPacked(before, after, off, n, val);
  }

  method PackBits(regArray: array<Word64>, fieldOffset: nat, fieldBits: nat, fieldVal: Word64)
    requires 1 <= fieldBits <= 63 && fieldOffset + fieldBits <= 64 * regArray.Length
    modifies regArray
    ensures Flat(regArray[..]) == Packed(Flat(old(regArray[..])), fieldOffset, fieldBits, fieldVal)
  {
    hide LowMask, And, Or, Not, Shl, Shr, Flat, Packed;
    ghost var before := regArray[..];
    var val := And(fieldVal, LowMask(64, fieldBits));
    var startWord, endWord := fieldOffset / 64, (fieldOffset + fieldBits - 1) / 64;
    var off := fieldOffset % 64;
    var startMask := Shl(LowMask(64, fieldBits), off);
    regArray[startWord] := And(regArray[startWord], Not(startMask));
    regArray[startWord] := Or(regArray[startWord], Shl(val, off));
    StartWordBits(before[startWord], regArray[startWord], fieldVal, off, fieldBits);
    if startWord != endWord {
      var bitsToDo := (off + fieldBits) % 64;
      var endMask := LowMask(64, bitsToDo);
      regArray[endWord] := And(regArray[endWord], Not(endMask));
      regArray[endWord] := Or(regArray[endWord], Shr(val, fieldBits - bitsToDo));
      EndWordBits(before[endWord], regArray[endWord], fieldVal, fieldBits, bitsToDo);
    }
    WordsPacked(before, regArray[..], fieldOffset, fieldBits, fieldVal);
  }

  lemma StartWordField(w: Word64, off: nat, n: nat)
    requires 1 <= n <= 63 && off < 64
    ensures var r := Shr(And(w, Shl(LowMask(64, n), off)), off);
      forall i | 0 <= i < 64 :: r[i] <==> i < n && off + i < 64 && w[off + i]
  {
    LowMaskBits(64, n);
    hide LowMask;
  }

  lemma EndWordField(w: Word64, n: nat, k: nat)
    requires 1 <= n <= 63 && k < n
    ensures var r := Shl(And(w, LowMask(64, k)), n - k);
      forall i | 0 <= i < 64 :: r[i] <==> n - k <= i < n && w[i - (n - k)]
  {
    LowMaskBits(64, k);
    hide LowMask;
  }

  // The final mask keeps the field.
  lemma FieldIs(bits: seq<bool>, off: nat, n: nat, res: Word64)
    requires 1 <= n <= 63 && off + n <= |bits| && forall i | 0 <= i < n :: res[i] == bits[off + i]
    ensures And(res, LowMask(64, n)) == bits[off..off + n] + Zeros(64 - n)
  {
    LowMaskBits(64, n);
    hide LowMask;
  }

  method UnpackBits(regArray: array<Word64>, fieldOffset: nat, fieldBits: nat) returns (res: Word64)
    requires 1 <= fieldBits <= 63 && fieldOffset + fieldBits <= 64 * regArray.Length
    ensures res == Flat(regArray[..])[fieldOffset..fieldOffset + fieldBits] + Zeros(64 - fieldBits)
  {
    hide LowMask, And, Shl, Shr;
    ghost var bits := Flat(regArray[..]);
    var startWord, endWord := fieldOffset / 64, (fieldOffset + fieldBits - 1) / 64;
    var off := fieldOffset % 64;
    var startMask := Shl(LowMask(64, fieldBits), off);
    StartWordField(regArray[startWord], off, fieldBits);
    res := Shr(And(regArray[startWord], startMask), off);
    if startWord == endWord {
      FieldIs(bits, fieldOffset, fieldBits, res);
      res := And(res, LowMask(64, fieldBits));
      return;
    }
    var bitsToDo := (off + fieldBits) % 64;
    var endMask := LowMask(64, bitsToDo);
    EndWordField(regArray[endWord], fieldBits, bitsToDo);
    res := Or(res, Shl(And(regArray[endWord], endMask), fieldBits - bitsToDo));
    FieldIs(bits, fieldOffset, fieldBits, res);
    res := And(res, LowMask(64, fieldBits));
  }

  // ---------- CRC ----------

  // The 28 ones that stand for a set bit cover the polynomial.
  function Fill(b: bool): (w: Word32) {
    seq(32, i requires 0 <= i < 32 => b && i < 28)
  }

  lemma FillStep(crc: Word32, b: bool)
    ensures Xor(Shl(crc, 1), And(Xor(Fill(b), Fill(crc[31])), Poly())) == Step(crc, b)
  {}

  method Crc32(dataArray: array<Word64>, size: nat, offset: nat) returns (crc: Word32)
    requires offset + size <= 64 * dataArray.Length
    ensures crc == CrcOf(Flat(dataArray[..])[offset..offset + size])
  {
    hide Step, Xor, And, Shl, Fill, Poly;
    ghost var bits := Flat(dataArray[..])[offset..offset + size];
    crc := Ones();
    for i := offset to size + offset
      invariant Fold(crc, bits[i - offset..]) == CrcOf(bits)
    {
      var d := Fill(dataArray[i / 64][i % 64]);
      var crc32 := Fill(crc[31]);
      FillStep(crc, dataArray[i / 64][i % 64]);
      assert bits[i - offset..][0] == dataArray[i / 64][i % 64] && bits[i - offset..][1..] == bits[i + 1 - offset..];
      crc := Xor(Shl(crc, 1), And(Xor(d, crc32), Poly()));
    }
  }

  // ---------- Frames ----------

  function Extend(x: Word32): Word64 {
    x + Zeros(32)
  }

  // A field is sent with its highest bit first.
  method PackReversed(reg: array<Word64>, off: nat, n: nat, val: Word32)
    requires 1 <= n <= 32 && off + n <= 64 * reg.Length
    modifies reg
    ensures Flat(reg[..]) == Flat(old(reg[..]))[..off] + Rev(val[..n]) + Flat(old(reg[..]))[off + n..]
  {
    hide Flat, Swar, Reversal;
    var r := BitReverseData(val, n);
    PackBits(reg, off, n, Extend(r));
    assert Extend(r)[..n] == r[..n];
  }

  method UnpackReversed(reg: array<Word64>, off: nat) returns (r: Word32)
    requires off + 32 <= 64 * reg.Length
    ensures r == Rev(Flat(reg[..])[off..off + 32])
  {
    hide Flat, Swar, Reversal;
    var u := UnpackBits(reg, off, 32);
    r := BitReverseData(u[..32], 32);
    assert u[..32] == Flat(reg[..])[off..off + 32];
    assert r[..32] == r && u[..32][..32] == u[..32];
  }

  // The CRC field closes a frame of 'n' bits. The whole frame then has residue zero.
  method AppendCrc(reg: array<Word64>, n: nat)
    requires n + 32 <= 64 * reg.Length
    modifies reg
    ensures Flat(reg[..])[..n] == Flat(old(reg[..]))[..n] && CrcOf(Flat(reg[..])[..n + 32]) == Zero()
    ensures Flat(reg[..])[n + 32..] == Flat(old(reg[..]))[n + 32..]
  {
    hide Flat, CrcOf, Zero;
    ghost var payload := Flat(reg[..])[..n];
    var crc := Crc32(reg, n, 0);
    assert Flat(reg[..])[0..n] == payload;
    PackReversed(reg, n, 32, crc);
    assert crc[..32] == crc;
    assert Flat(reg[..])[..n + 32] == payload + Rev(crc);
    ResidueIff(payload, Rev(crc));
  }

  // A response of 'n' bits at 'off' and its CRC field are accepted exactly when together they have residue zero.
  method CheckResponse(reg: array<Word64>, off: nat, n: nat) returns (ok: bool)
    requires off + n + 32 <= 64 * reg.Length
    ensures ok <==> CrcOf(Flat(reg[..])[off..off + n + 32]) == Zero()
  {
    hide Flat, CrcOf, Zero;
    ghost var bits := Flat(reg[..]);
    var calcRecvCrc := Crc32(reg, n, off);
    var recvCrc := UnpackReversed(reg, off + n);
    ok := calcRecvCrc == recvCrc;
    ResidueIff(bits[off..off + n], bits[off + n..off + n + 32]);
    assert bits[off..off + n] + bits[off + n..off + n + 32] == bits[off..off + n + 32];
    RevTwice(bits[off + n..off + n + 32], recvCrc);
  }

  lemma RevTwice(x: seq<bool>, y: Word32)
    requires |x| == 32 && y == Rev(x)
    ensures Rev(y) == x && forall c: Word32 :: x == Rev(c) <==> c == y
  {
    assert Rev(Rev(x)) == x;
    forall c: Word32
      ensures x == Rev(c) <==> c == y
    {
      assert Rev(Rev(c)) == c;
    }
  }

  method ClearBits(reg: array<Word64>)
    modifies reg
    ensures Flat(reg[..]) == Zeros(64 * reg.Length)
  {
    for i := 0 to reg.Length
      invariant forall k | 0 <= k < i :: reg[k] == Zeros(64)
    {
      reg[i] := Zeros(64);
    }
  }

  // The burst command of readJtagReg and writeJtagReg: a zero bit, then opcode, access type, address and length, each
  // with its highest bit first.
  function CommandPayload(opcode: Word32, access: Word32, addr: Word32, length: Word32): (p: seq<bool>)
    ensures |p| == 57
  {
    [false] + Rev(opcode[..4]) + Rev(access[..4]) + Rev(addr[..32]) + Rev(length[..16])
  }

  lemma CommandDecodes(opcode: Word32, access: Word32, addr: Word32, length: Word32)
    ensures var p := CommandPayload(opcode, access, addr, length);
      && Rev(p[1..5]) == opcode[..4] && Rev(p[5..9]) == access[..4] && Rev(p[9..41]) == addr
        && Rev(p[41..57]) == length[..16]
  {
    var p := CommandPayload(opcode, access, addr, length);
    assert p[1..5] == Rev(opcode[..4]) && p[5..9] == Rev(access[..4]) && p[9..41] == Rev(addr[..32])
      && p[41..57] == Rev(length[..16]);
  }

  method CommandFrame(reg: array<Word64>, opcode: Word32, access: Word32, addr: Word32, length: Word32)
    requires reg.Length == 2
    modifies reg
    ensures Flat(reg[..])[..57] == CommandPayload(opcode, access, addr, length)
    ensures CrcOf(Flat(reg[..])[..89]) == Zero()
  {
    hide Flat, CrcOf, Zero;
    ClearBits(reg);
    PackBits(reg, 0, 1, Zeros(64));
    assert Flat(reg[..])[..1] == [false];
    PackReversed(reg, 1, 4, opcode);
    assert Flat(reg[..])[..5] == [false] + Rev(opcode[..4]);
    PackReversed(reg, 5, 4, access);
    assert Flat(reg[..])[..9] == [false] + Rev(opcode[..4]) + Rev(access[..4]);
    PackReversed(reg, 9, 32, addr);
    assert Flat(reg[..])[..41] == [false] + Rev(opcode[..4]) + Rev(access[..4]) + Rev(addr[..32]);
    PackReversed(reg, 41, 16, length);
    assert Flat(reg[..])[..57] == CommandPayload(opcode, access, addr, length);
    AppendCrc(reg, 57);
  }

  // The frame that starts a transfer, with or without the data to be written.
  method GoFrame(reg: array<Word64>, write: bool, data: Word32)
    requires reg.Length == 2
    modifies reg
    ensures Flat(reg[..])[..5] == Zeros(5) && (write ==> Flat(reg[..])[5..37] == Rev(data))
    ensures CrcOf(Flat(reg[..])[..if write then 69 else 37]) == Zero()
  {
    hide Flat, CrcOf, Zero;
    ClearBits(reg);
    PackBits(reg, 0, 1, Zeros(64));
    assert Flat(reg[..])[..1] == Zeros(1);
    PackBits(reg, 1, 4, Zeros(64));
    assert Flat(reg[..])[..5] == Zeros(5);
    if write {
      PackReversed(reg, 5, 32, data);
      assert data[..32] == data;
      ghost var p := Flat(reg[..])[..37];
      assert p[..5] == Zeros(5) && p[5..37] == Rev(data);
      AppendCrc(reg, 37);
      assert Flat(reg[..])[..5] == p[..5] && Flat(reg[..])[5..37] == p[5..37];
    } else {
      AppendCrc(reg, 5);
    }
  }

  // The frame that selects a module of the debug unit.
  method SelectFrame(reg: array<Word64>, chain: Word32)
    requires reg.Length == 2
    modifies reg
    ensures Flat(reg[..])[..5] == [true] + Rev(chain[..4]) && CrcOf(Flat(reg[..])[..37]) == Zero()
  {
    hide Flat, CrcOf, Zero;
    ClearBits(reg);
    PackBits(reg, 0, 1, One(64));
    assert Flat(reg[..])[..1] == [true];
    PackReversed(reg, 1, 4, chain);
    assert Flat(reg[..])[..5] == [true] + Rev(chain[..4]);
    AppendCrc(reg, 5);
  }
}
