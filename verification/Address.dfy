// How an address splits into tag, set index and bank (sysc/memu.cpp, GetBankOfAdr to ComposeAdress). The shifts and
// masks by powers of two are divisions and remainders.

module Address {
  import opened Words

  // A tag as it travels between the tag RAM, the ports and the bus interface.
  datatype CacheTag = CacheTag(valid: bool, dirty: bool, tadr: nat, way: nat)

  const NO_TAG := CacheTag(false, false, 0, 0)

  // Banks (words) per line, number of sets, and number of tags: together they cover the address space.
  datatype Geometry = Geometry(banks: nat, sets: nat, tags: nat) {

    ghost predicate Valid() {
      banks > 0 && sets > 0 && tags > 0 && tags * sets * banks * 4 == 0x1_0000_0000
    }

    // adr >> (CACHE_BANKS_LD + 2)
    function Line(a: Adr): nat
      requires banks > 0
    {
      a / 4 / banks
    }

    function Bank(a: Adr): (b: nat)
      requires banks > 0
      ensures b < banks
    {
      (a / 4) % banks
    }

    function Index(a: Adr): (i: nat)
      requires banks > 0 && sets > 0
      ensures i < sets
    {
      Line(a) % sets
    }

    function Tag(a: Adr): nat
      requires banks > 0 && sets > 0
    {
      Line(a) / sets
    }

    // The position of a word in its bank: index | way << CACHE_SETS_LD.
    function WayIndex(a: Adr, way: nat): nat
      requires banks > 0 && sets > 0
    {
      Index(a) + way * sets
    }

    // The address of word 'bank' of the line with this tag and index.
    function Compose(tag: nat, index: nat, bank: nat): (a: Adr)
      requires Valid() && tag < tags && index < sets && bank < banks
      ensures a % 4 == 0
    {
      ComposedFits(this, tag, index, bank);
      ((tag * sets + index) * banks + bank) * 4
    }
  }

  lemma ProductBelow(x: nat, y: nat, m: nat, n: nat)
    requires x < m && y < n
    ensures x * n + y < m * n
  {
    assert x * n + n <= m * n by {
      assert (x + 1) * n <= m * n;
    }
  }

  lemma ComposedFits(g: Geometry, tag: nat, index: nat, bank: nat)
    requires g.Valid() && tag < g.tags && index < g.sets && bank < g.banks
    ensures ((tag * g.sets + index) * g.banks + bank) * 4 < 0x1_0000_0000
  {
    ProductBelow(tag, index, g.tags, g.sets);
    ProductBelow(tag * g.sets + index, bank, g.tags * g.sets, g.banks);
  }

  lemma DivModOf(q: nat, r: nat, n: nat)
    requires r < n
    ensures (q * n + r) / n == q && (q * n + r) % n == r
  {
    var x := q * n + r;
    var q', r' := x / n, x % n;
    assert x == q' * n + r';
    if q' > q {
      ProductBelow(q, r, q', n);
    } else if q' < q {
      ProductBelow(q', r', q, n);
    }
  }

  // Composing inverts the split ...
  lemma ComposeSplits(g: Geometry, tag: nat, index: nat, bank: nat)
    requires g.Valid() && tag < g.tags && index < g.sets && bank < g.banks
    ensures var a := g.Compose(tag, index, bank); g.Tag(a) == tag && g.Index(a) == index && g.Bank(a) == bank
  {
    var line := tag * g.sets + index;
    DivModOf(line, bank, g.banks);
    DivModOf(tag, index, g.sets);
  }

  lemma TagInRange(g: Geometry, a: Adr)
    requires g.Valid()
    ensures g.Tag(a) < g.tags
  {
    var w := a / 4;
    var line := w / g.banks;
    if g.Tag(a) >= g.tags {
      assert line == g.Tag(a) * g.sets + g.Index(a);
      assert line >= g.tags * g.sets by { AtLeast(g.Tag(a), g.tags, g.sets); }
      assert w == line * g.banks + g.Bank(a);
      AtLeast(line, g.tags * g.sets, g.banks);
    }
  }

  lemma AtLeast(x: nat, y: nat, n: nat)
    requires x >= y
    ensures x * n >= y * n
  {}

  // ... and splitting inverts composing, up to the byte number.
  lemma SplitComposes(g: Geometry, a: Adr)
    requires g.Valid()
    ensures g.Tag(a) < g.tags && g.Compose(g.Tag(a), g.Index(a), g.Bank(a)) == WordAdr(a)
  {
    TagInRange(g, a);
    var w := a / 4;
    var line := w / g.banks;
    assert w == line * g.banks + g.Bank(a);
    assert line == g.Tag(a) * g.sets + g.Index(a);
  }

  // Two addresses are in the same word exactly when tag, index and bank agree.
  lemma SameWord(g: Geometry, a: Adr, b: Adr)
    requires g.Valid()
    ensures WordAdr(a) == WordAdr(b) <==> g.Tag(a) == g.Tag(b) && g.Index(a) == g.Index(b) && g.Bank(a) == g.Bank(b)
  {
    SplitComposes(g, a);
    SplitComposes(g, b);
    assert WordAdr(a) / 4 == a / 4 && WordAdr(b) / 4 == b / 4;
  }
}
