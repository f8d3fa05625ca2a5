// Machine words, byte selection and addresses, shared by the load/store unit and the memory unit.

module Words {

  newtype byte = b: int | 0 <= b < 0x100

  // A 32-bit byte address.
  type Adr = a: nat | a < 0x1_0000_0000

  // A 32-bit word as its four bytes. 'b0' holds bits 31..24 and belongs to the lowest address, so the mask
  // 0xff000000 >> (8 * n) of the hardware description picks byte 'n'.
  datatype Word = Word(b0: byte, b1: byte, b2: byte, b3: byte) {

    function At(n: nat): byte
      requires n < 4
    {
      if n == 0 then b0 else if n == 1 then b1 else if n == 2 then b2 else b3
    }

    // The word with byte 'n' taken from 'v'.
    function Replace(n: nat, v: Word): (r: Word)
      requires n < 4
      ensures r.At(n) == v.At(n) && forall k | 0 <= k < 4 && k != n :: r.At(k) == At(k)
    {
      if n == 0 then this.(b0 := v.b0)
      else if n == 1 then this.(b1 := v.b1)
      else if n == 2 then this.(b2 := v.b2)
      else this.(b3 := v.b3)
    }
  }

  // A set of bytes of a word: bit 'n' of a 4-bit 'bsel' signal selects byte 'n'.
  datatype ByteSel = ByteSel(s0: bool, s1: bool, s2: bool, s3: bool) {

    predicate Has(n: nat)
      requires n < 4
    {
      if n == 0 then s0 else if n == 1 then s1 else if n == 2 then s2 else s3
    }

    predicate Empty() {
      !s0 && !s1 && !s2 && !s3
    }

    predicate Within(other: ByteSel) {
      (s0 ==> other.s0) && (s1 ==> other.s1) && (s2 ==> other.s2) && (s3 ==> other.s3)
    }

    function Union(other: ByteSel): ByteSel {
      ByteSel(s0 || other.s0, s1 || other.s1, s2 || other.s2, s3 || other.s3)
    }
  }

  const ZERO_WORD := Word(0, 0, 0, 0)
  const NO_BYTES := ByteSel(false, false, false, false)
  const ALL_BYTES := ByteSel(true, true, true, true)

  // The contents of memory, one word for each word-aligned address.
  type Memory = Adr -> Word

  // The address of the word that contains 'a' (adr & ~3).
  function WordAdr(a: Adr): (w: Adr)
    ensures w % 4 == 0 && w <= a < w + 4
  {
    a - a % 4
  }

  // The selected bytes of 'top' laid over 'base'.
  function Overlay(base: Word, top: Word, sel: ByteSel): Word {
    Word(if sel.s0 then top.b0 else base.b0, if sel.s1 then top.b1 else base.b1,
         if sel.s2 then top.b2 else base.b2, if sel.s3 then top.b3 else base.b3)
  }

  // 'm' after the selected bytes of 'w' have been stored at the word address 'a'.
  function StoreWord(m: Memory, a: Adr, w: Word, sel: ByteSel): Memory {
    (x: Adr) => if x == a then Overlay(m(x), w, sel) else m(x)
  }
}
