// The cache refines a flat memory, whatever the replacement policy.

module CacheProofs {
  import opened Words
  import opened Address
  import opened CacheSpec

  // ---------- Addresses and words ----------

  lemma MemPosMatches(p: Params, tag: nat, index: nat, bank: nat, a: Adr)
    requires p.Valid() && tag < p.geo.tags && index < p.geo.sets && bank < p.geo.banks
    ensures MemPos(p, tag, index, bank) == a / 4 <==>
      p.geo.Tag(a) == tag && p.geo.Index(a) == index && p.geo.Bank(a) == bank
  {
    var x := p.geo.Compose(tag, index, bank);
    ComposeSplits(p.geo, tag, index, bank);
    SameWord(p.geo, x, a);
    hide Geometry.Compose, Geometry.Tag, Geometry.Index, Geometry.Bank, Geometry.Line;
    assert WordAdr(x) == x && WordAdr(a) / 4 == a / 4;
  }

  lemma {:induction false} WriteLineAt(p: Params, mem: seq<Word>, tag: nat, index: nat, words: seq<Word>, n: nat,
    a: Adr)
    requires p.Valid() && |mem| == MEM_WORDS && tag < p.geo.tags && index < p.geo.sets && n <= |words| == p.geo.banks
    ensures WriteLine(p, mem, tag, index, words, n)[a / 4] ==
      if p.geo.Tag(a) == tag && p.geo.Index(a) == index && p.geo.Bank(a) < n then words[p.geo.Bank(a)] else mem[a / 4]
  {
    hide MemPos, Geometry.Tag, Geometry.Index, Geometry.Bank;
    if n > 0 {
      WriteLineAt(p, mem, tag, index, words, n - 1, a);
      MemPosMatches(p, tag, index, n - 1, a);
    }
  }

  // The word at a line's address is that of the line when it is cached in way 'w'.
  lemma LookAtWay(p: Params, c: Contents, a: Adr, w: nat)
    requires Consistent(p, c) && w < p.ways && c.tags[p.geo.Index(a)][w].Hits(p.geo.Tag(a))
    ensures Way(p, c, a) == w && Look(p, c, a) == c.lines[Pos(p, p.geo.Index(a), w)][p.geo.Bank(a)]
  {
    hide CleanOk, FindWay, Geometry.Tag, Geometry.Index, Geometry.Bank;
    assert SetOk(p, c.tags[p.geo.Index(a)]);
  }

  lemma LookOfWord(p: Params, c: Contents, a: Adr)
    requires Sized(p, c)
    ensures p.geo.Tag(a) < p.geo.tags
    ensures Look(p, c, p.geo.Compose(p.geo.Tag(a), p.geo.Index(a), p.geo.Bank(a))) == Look(p, c, a)
  {
    SplitComposes(p.geo, a);
    var x := WordAdr(a);
    SameWord(p.geo, x, a);
    hide Geometry.Compose, Geometry.Tag, Geometry.Index, Geometry.Bank, Geometry.Line;
    assert x / 4 == a / 4 && WordAdr(x) == x;
  }

  // After the victim has been written, memory holds the words of the victim's line and is otherwise unchanged.
  lemma VictimAt(p: Params, c: Contents, i: nat, w: nat, a: Adr)
    requires Consistent(p, c) && i < p.geo.sets && w < p.ways
    ensures VictimWritten(p, c, i, w)[a / 4] ==
      if c.tags[i][w].Hits(p.geo.Tag(a)) && p.geo.Index(a) == i then c.lines[Pos(p, i, w)][p.geo.Bank(a)]
        else c.mem[a / 4]
  {
    hide Geometry.Tag, Geometry.Index, Geometry.Bank, MemPos, Pos;
    var t := c.tags[i][w];
    assert SetOk(p, c.tags[i]) && CleanOk(p, c, i, w);
    if t.dirty {
      WriteLineAt(p, c.mem, t.tadr, i, c.lines[Pos(p, i, w)], p.geo.banks, a);
    } else if t.valid && p.geo.Tag(a) == t.tadr && p.geo.Index(a) == i {
      MemPosMatches(p, t.tadr, i, p.geo.Bank(a), a);
    }
  }

  // ---------- Changing a way without changing memory as the CPUs see it ----------

  // Way 'w' of set 'i' is given to the line 't', or to none, after its old line has been written back.
  function Retag(p: Params, c: Contents, i: nat, w: nat, t: TagLine, words: seq<Word>): Contents
    requires Consistent(p, c) && i < p.geo.sets && w < p.ways
  {
    Contents(WithTag(p, c, i, w, t), c.lines[Pos(p, i, w) := words], VictimWritten(p, c, i, w))
  }

  // 't' is clean, cached nowhere else, and 'words' are its present values.
  ghost predicate RetagOk(p: Params, c: Contents, i: nat, w: nat, t: TagLine, words: seq<Word>) {
    && Consistent(p, c) && i < p.geo.sets && w < p.ways && |words| == p.geo.banks && !t.dirty
    && (t.valid ==>
        t.tadr < p.geo.tags && (forall v | 0 <= v < p.ways && v != w :: !c.tags[i][v].Hits(t.tadr))
        && forall b | 0 <= b < p.geo.banks :: words[b] == Look(p, c, p.geo.Compose(t.tadr, i, b)))
  }

  lemma RetagOtherSet(p: Params, c: Contents, i: nat, w: nat, t: TagLine, words: seq<Word>, x: Adr)
    requires RetagOk(p, c, i, w, t, words) && p.geo.Index(x) != i
    ensures Look(p, Retag(p, c, i, w, t, words), x) == Look(p, c, x)
  {
    hide Geometry.Tag, Geometry.Bank, Geometry.Index, CleanOk, SetOk, Pos, FindWay, VictimWritten;
    VictimAt(p, c, i, w, x);
    var c' := Retag(p, c, i, w, t, words);
    assert c'.tags[p.geo.Index(x)] == c.tags[p.geo.Index(x)];
    var v := Way(p, c, x);
    if v >= 0 && Pos(p, p.geo.Index(x), v) == Pos(p, i, w) {
      PosInjective(p, p.geo.Index(x), v, i, w);
    }
  }

  lemma RetagSameSet(p: Params, c: Contents, i: nat, w: nat, t: TagLine, words: seq<Word>, x: Adr)
    requires RetagOk(p, c, i, w, t, words) && p.geo.Index(x) == i && !t.Hits(p.geo.Tag(x))
    ensures Look(p, Retag(p, c, i, w, t, words), x) == Look(p, c, x)
  {
    hide Geometry.Tag, Geometry.Bank, Geometry.Index, Geometry.Compose, CleanOk, Pos, FindWay, VictimWritten;
    VictimAt(p, c, i, w, x);
    var c' := Retag(p, c, i, w, t, words);
    assert SetOk(p, c.tags[i]);
    var v, v' := Way(p, c, x), Way(p, c', x);
    assert forall u | 0 <= u < p.ways && u != w :: c'.tags[i][u] == c.tags[i][u];
    if v >= 0 && v != w {
      assert c'.tags[i][v].Hits(p.geo.Tag(x));
      assert v' == v;
      if Pos(p, i, v) == Pos(p, i, w) {
        PosInjective(p, i, v, i, w);
      }
    } else {
      assert v' == -1;
    }
  }

  lemma RetagNewLine(p: Params, c: Contents, i: nat, w: nat, t: TagLine, words: seq<Word>, x: Adr)
    requires RetagOk(p, c, i, w, t, words) && p.geo.Index(x) == i && t.Hits(p.geo.Tag(x))
    ensures Look(p, Retag(p, c, i, w, t, words), x) == Look(p, c, x)
  {
    hide Geometry.Tag, Geometry.Bank, Geometry.Index, Geometry.Compose, CleanOk, SetOk, Pos, FindWay, VictimWritten;
    var c' := Retag(p, c, i, w, t, words);
    LookOfWord(p, c, x);
    assert c'.tags[i][w] == t;
    assert Way(p, c', x) == w;
    assert words[p.geo.Bank(x)] == Look(p, c, p.geo.Compose(t.tadr, i, p.geo.Bank(x)));
  }

  lemma RetagKeepsLook(p: Params, c: Contents, i: nat, w: nat, t: TagLine, words: seq<Word>, x: Adr)
    requires RetagOk(p, c, i, w, t, words)
    ensures Look(p, Retag(p, c, i, w, t, words), x) == Look(p, c, x)
  {
    if p.geo.Index(x) != i {
      RetagOtherSet(p, c, i, w, t, words, x);
    } else if t.Hits(p.geo.Tag(x)) {
      RetagNewLine(p, c, i, w, t, words, x);
    } else {
      RetagSameSet(p, c, i, w, t, words, x);
    }
  }

  lemma RetagNewClean(p: Params, c: Contents, i: nat, w: nat, t: TagLine, words: seq<Word>, b: nat)
    requires RetagOk(p, c, i, w, t, words) && t.valid && b < p.geo.banks
    ensures words[b] == VictimWritten(p, c, i, w)[MemPos(p, t.tadr, i, b)]
  {
    hide CleanOk, SetOk, Pos, FindWay, VictimWritten;
    var x := p.geo.Compose(t.tadr, i, b);
    ComposeSplits(p.geo, t.tadr, i, b);
    VictimAt(p, c, i, w, x);
    hide Geometry.Tag, Geometry.Bank, Geometry.Index, Geometry.Compose;
    if c.tags[i][w].Hits(t.tadr) {
      LookAtWay(p, c, x, w);
    } else {
      assert Way(p, c, x) == -1;
    }
  }

  lemma RetagOldClean(p: Params, c: Contents, i: nat, w: nat, j: nat, v: nat, b: nat)
    requires Consistent(p, c) && i < p.geo.sets && w < p.ways && j < p.geo.sets && v < p.ways && (j != i || v != w)
    requires c.tags[j][v].valid && !c.tags[j][v].dirty && b < p.geo.banks
    ensures SetOk(p, c.tags[j])
    ensures c.lines[Pos(p, j, v)][b] == VictimWritten(p, c, i, w)[MemPos(p, c.tags[j][v].tadr, j, b)]
  {
    hide FindWay, VictimWritten;
    assert SetOk(p, c.tags[j]) && CleanOk(p, c, j, v);
    hide Pos;
    var x := p.geo.Compose(c.tags[j][v].tadr, j, b);
    ComposeSplits(p.geo, c.tags[j][v].tadr, j, b);
    VictimAt(p, c, i, w, x);
    hide Geometry.Tag, Geometry.Bank, Geometry.Index, Geometry.Compose;
  }

  lemma RetagConsistent(p: Params, c: Contents, i: nat, w: nat, t: TagLine, words: seq<Word>)
    requires RetagOk(p, c, i, w, t, words)
    ensures Consistent(p, Retag(p, c, i, w, t, words))
  {
    hide FindWay, VictimWritten, Pos, Look, MemPos, Geometry.Compose;
    var c' := Retag(p, c, i, w, t, words);
    forall j | 0 <= j < p.geo.sets
      ensures SetOk(p, c'.tags[j])
    {
      assert SetOk(p, c.tags[j]);
    }
    forall j, v | 0 <= j < p.geo.sets && 0 <= v < p.ways
      ensures CleanOk(p, c', j, v)
    {
      RetagCleanAt(p, c, i, w, t, words, j, v);
    }
  }

  lemma RetagCleanAt(p: Params, c: Contents, i: nat, w: nat, t: TagLine, words: seq<Word>, j: nat, v: nat)
    requires RetagOk(p, c, i, w, t, words) && j < p.geo.sets && v < p.ways
    requires SetOk(p, Retag(p, c, i, w, t, words).tags[j])
    ensures CleanOk(p, Retag(p, c, i, w, t, words), j, v)
  {
    hide FindWay, VictimWritten, Pos, Look, MemPos, Geometry.Compose;
    var c' := Retag(p, c, i, w, t, words);
    if c'.tags[j][v].valid && !c'.tags[j][v].dirty {
      if j != i || v != w {
        assert c'.tags[j][v] == c.tags[j][v];
        if Pos(p, j, v) == Pos(p, i, w) {
          PosInjective(p, j, v, i, w);
        }
      }
      forall b | 0 <= b < p.geo.banks
        ensures c'.lines[Pos(p, j, v)][b] == c'.mem[MemPos(p, c'.tags[j][v].tadr, j, b)]
      {
        if j == i && v == w {
          RetagNewClean(p, c, i, w, t, words, b);
        } else {
          RetagOldClean(p, c, i, w, j, v, b);
        }
      }
    }
  }

  // ---------- The operations ----------

  lemma ReplaceIsRetag(p: Params, c: Contents, a: Adr, victim: nat)
    requires Consistent(p, c) && victim < p.ways && Way(p, c, a) < 0
    ensures var i, t, words := p.geo.Index(a), TagLine(true, false, p.geo.Tag(a)), MemLine(p, c, a);
      RetagOk(p, c, i, victim, t, words) && ReplaceLine(p, c, a, victim) == Retag(p, c, i, victim, t, words)
  {
    TagInRange(p.geo, a);
    var i, tag := p.geo.Index(a), p.geo.Tag(a);
    forall b | 0 <= b < p.geo.banks
      ensures MemLine(p, c, a)[b] == Look(p, c, p.geo.Compose(tag, i, b))
    {
      ComposeSplits(p.geo, tag, i, b);
    }
  }

  lemma SpecialIsRetag(p: Params, c: Contents, a: Adr, victim: nat, flush: bool)
    requires Consistent(p, c) && victim < p.ways
    ensures var i, w := p.geo.Index(a), TagWay(p, c, a, victim);
      var t, words := TagLine(Way(p, c, a) >= 0 && !flush, false, p.geo.Tag(a)), c.lines[Pos(p, i, w)];
      RetagOk(p, c, i, w, t, words) && Special(p, c, a, victim, flush) == Retag(p, c, i, w, t, words)
  {
    TagInRange(p.geo, a);
    var i, w, tag := p.geo.Index(a), TagWay(p, c, a, victim), p.geo.Tag(a);
    assert SetOk(p, c.tags[i]);
    if Way(p, c, a) >= 0 {
      forall b | 0 <= b < p.geo.banks
        ensures c.lines[Pos(p, i, w)][b] == Look(p, c, p.geo.Compose(tag, i, b))
      {
        ComposeSplits(p.geo, tag, i, b);
        hide Geometry.Tag, Geometry.Bank, Geometry.Index, Geometry.Compose, Pos;
        LookAtWay(p, c, p.geo.Compose(tag, i, b), w);
      }
    }
  }

  // Replacing a line, writing back and flushing never change memory as the CPUs see it, even when a writeback or a
  // flush misses and evicts some other line of the set.
  lemma ReplaceKeeps(p: Params, c: Contents, a: Adr, victim: nat, x: Adr)
    requires Consistent(p, c) && victim < p.ways && Way(p, c, a) < 0
    ensures Consistent(p, ReplaceLine(p, c, a, victim))
    ensures Look(p, ReplaceLine(p, c, a, victim), x) == Look(p, c, x)
  {
    var i, t, words := p.geo.Index(a), TagLine(true, false, p.geo.Tag(a)), MemLine(p, c, a);
    ReplaceIsRetag(p, c, a, victim);
    hide ReplaceLine, Retag, Consistent, Look, RetagOk, Way;
    RetagConsistent(p, c, i, victim, t, words);
    RetagKeepsLook(p, c, i, victim, t, words, x);
  }

  lemma SpecialKeeps(p: Params, c: Contents, a: Adr, victim: nat, flush: bool, x: Adr)
    requires Consistent(p, c) && victim < p.ways
    ensures Consistent(p, Special(p, c, a, victim, flush))
    ensures Look(p, Special(p, c, a, victim, flush), x) == Look(p, c, x)
  {
    var i, w := p.geo.Index(a), TagWay(p, c, a, victim);
    var t, words := TagLine(Way(p, c, a) >= 0 && !flush, false, p.geo.Tag(a)), c.lines[Pos(p, i, w)];
    SpecialIsRetag(p, c, a, victim, flush);
    hide Special, Retag, Consistent, Look, RetagOk, Way;
    RetagConsistent(p, c, i, w, t, words);
    RetagKeepsLook(p, c, i, w, t, words, x);
  }

  // While a new line is written under an invalid tag, in whatever part, every hit still delivers the right word.
  lemma HitsDuringFill(p: Params, c: Contents, i: nat, w: nat, t: TagLine, words: seq<Word>, x: Adr)
    requires Consistent(p, c) && i < p.geo.sets && w < p.ways && |words| == p.geo.banks && !t.valid
    requires var d := Contents(WithTag(p, c, i, w, t), c.lines[Pos(p, i, w) := words], c.mem);
      Sized(p, d) && Way(p, d, x) >= 0
    ensures Look(p, Contents(WithTag(p, c, i, w, t), c.lines[Pos(p, i, w) := words], c.mem), x) == Look(p, c, x)
  {
    hide Geometry.Tag, Geometry.Bank, Geometry.Index, CleanOk, Pos, FindWay;
    var d := Contents(WithTag(p, c, i, w, t), c.lines[Pos(p, i, w) := words], c.mem);
    var j, v := p.geo.Index(x), Way(p, d, x);
    assert SetOk(p, c.tags[j]);
    assert j != i || v != w;
    assert c.tags[j][v] == d.tags[j][v];
    LookAtWay(p, c, x, v);
    if Pos(p, j, v) == Pos(p, i, w) {
      PosInjective(p, j, v, i, w);
    }
  }

  // After a flush the line is not in the cache, and bus memory holds its present value.
  lemma FlushEvicts(p: Params, c: Contents, a: Adr, victim: nat)
    requires Consistent(p, c) && victim < p.ways
    ensures var r := Special(p, c, a, victim, true); Way(p, r, a) < 0 && r.mem[a / 4] == Look(p, c, a)
  {
    SpecialKeeps(p, c, a, victim, true, a);
    assert SetOk(p, c.tags[p.geo.Index(a)]);
    hide VictimWritten, Pos, Geometry.Tag, Geometry.Index, Geometry.Bank;
  }

  // After a writeback, bus memory holds the present value.
  lemma WritebackUpdatesMemory(p: Params, c: Contents, a: Adr, victim: nat)
    requires Consistent(p, c) && victim < p.ways
    ensures Special(p, c, a, victim, false).mem[a / 4] == Look(p, c, a)
  {
    hide Pos, Geometry.Tag, Geometry.Index, Geometry.Bank, VictimWritten;
    VictimAt(p, c, p.geo.Index(a), TagWay(p, c, a, victim), a);
  }

  lemma WriteHitConsistent(p: Params, c: Contents, a: Adr, sel: ByteSel, w: Word)
    requires Consistent(p, c) && Way(p, c, a) >= 0
    ensures Consistent(p, WriteHit(p, c, a, sel, w))
  {
    hide FindWay, Pos, MemPos, Geometry.Tag, Geometry.Index, Geometry.Bank, Overlay;
    var c', i, v := WriteHit(p, c, a, sel, w), p.geo.Index(a), Way(p, c, a);
    forall j | 0 <= j < p.geo.sets
      ensures SetOk(p, c'.tags[j])
    {
      assert SetOk(p, c.tags[j]);
    }
    forall j, u | 0 <= j < p.geo.sets && 0 <= u < p.ways
      ensures CleanOk(p, c', j, u)
    {
      assert SetOk(p, c.tags[j]) && CleanOk(p, c, j, u);
      if (j != i || u != v) && Pos(p, j, u) == Pos(p, i, v) {
        PosInjective(p, j, u, i, v);
      }
    }
  }

  // What a write hit does to one way of a set.
  lemma WriteHitLine(p: Params, c: Contents, a: Adr, sel: ByteSel, w: Word, j: nat, u: nat)
    requires Sized(p, c) && Way(p, c, a) >= 0 && j < p.geo.sets && u < p.ways
    ensures var c', k, v := WriteHit(p, c, a, sel, w), Pos(p, j, u), Way(p, c, a);
      && c'.tags[j][u].valid == c.tags[j][u].valid && c'.tags[j][u].tadr == c.tags[j][u].tadr
      && c'.lines[k] ==
         if j == p.geo.Index(a) && u == v
         then c.lines[k][p.geo.Bank(a) := Overlay(c.lines[k][p.geo.Bank(a)], w, sel)] else c.lines[k]
  {
    hide Overlay, Pos, Geometry.Tag, Geometry.Index, Geometry.Bank, FindWay;
    var i, v := p.geo.Index(a), Way(p, c, a);
    if Pos(p, j, u) == Pos(p, i, v) {
      PosInjective(p, j, u, i, v);
    }
  }

  // A write to a cached line changes exactly its selected bytes.
  lemma WriteHitAt(p: Params, c: Contents, a: Adr, sel: ByteSel, w: Word, x: Adr)
    requires Consistent(p, c) && Way(p, c, a) >= 0
    ensures Look(p, WriteHit(p, c, a, sel, w), x) ==
      if WordAdr(x) == WordAdr(a) then Overlay(Look(p, c, a), w, sel) else Look(p, c, x)
  {
    SameWord(p.geo, x, a);
    hide Overlay, Pos, Geometry.Tag, Geometry.Index, Geometry.Bank, CleanOk, FindWay, SetOk;
    var c', i, v, u := WriteHit(p, c, a, sel, w), p.geo.Index(a), Way(p, c, a), Way(p, c, x);
    WriteHitConsistent(p, c, a, sel, w);
    assert c'.mem == c.mem;
    hide WriteHit;
    forall y | 0 <= y < p.ways
      ensures c'.tags[p.geo.Index(x)][y].Hits(p.geo.Tag(x)) == c.tags[p.geo.Index(x)][y].Hits(p.geo.Tag(x))
    {
      WriteHitLine(p, c, a, sel, w, p.geo.Index(x), y);
    }
    if u >= 0 {
      WriteHitLine(p, c, a, sel, w, p.geo.Index(x), u);
      LookAtWay(p, c', x, u);
      if p.geo.Index(x) == i && p.geo.Tag(x) == p.geo.Tag(a) {
        LookAtWay(p, c, x, v);
      }
    } else {
      assert Way(p, c', x) == -1;
    }
  }

  // ---------- Whole runs ----------

  function FlatStep(m: Memory, op: Op): Memory {
    match op
    case Write(a, _, sel, w) => StoreWord(m, WordAdr(a), w, sel)
    case _ => m
  }

  // The cache shows the flat memory 'm'.
  ghost predicate Shows(p: Params, c: Contents, m: Memory) {
    Consistent(p, c) && forall x: Adr :: Look(p, c, x) == m(WordAdr(x))
  }

  lemma FetchShows(p: Params, c: Contents, m: Memory, a: Adr, victim: nat)
    requires Shows(p, c, m) && victim < p.ways
    ensures Shows(p, Fetch(p, c, a, victim), m)
  {
    hide SetOk, CleanOk, Look, ReplaceLine, Way;
    if Way(p, c, a) < 0 {
      forall x: Adr
        ensures Consistent(p, Fetch(p, c, a, victim))
        ensures Look(p, Fetch(p, c, a, victim), x) == m(WordAdr(x))
      {
        ReplaceKeeps(p, c, a, victim, x);
      }
      ReplaceKeeps(p, c, a, victim, a);
    }
  }

  lemma SpecialShows(p: Params, c: Contents, m: Memory, a: Adr, victim: nat, flush: bool)
    requires Shows(p, c, m) && victim < p.ways
    ensures Shows(p, Special(p, c, a, victim, flush), m)
  {
    hide Consistent, Look, Special;
    forall x: Adr
      ensures Look(p, Special(p, c, a, victim, flush), x) == m(WordAdr(x))
    {
      SpecialKeeps(p, c, a, victim, flush, x);
    }
    SpecialKeeps(p, c, a, victim, flush, a);
  }

  lemma WriteShows(p: Params, c: Contents, m: Memory, a: Adr, sel: ByteSel, w: Word)
    requires Shows(p, c, m) && Way(p, c, a) >= 0
    ensures Shows(p, WriteHit(p, c, a, sel, w), StoreWord(m, WordAdr(a), w, sel))
  {
    hide SetOk, CleanOk, Look, WriteHit, Overlay, Way;
    WriteHitConsistent(p, c, a, sel, w);
    forall x: Adr
      ensures Look(p, WriteHit(p, c, a, sel, w), x) == StoreWord(m, WordAdr(a), w, sel)(WordAdr(x))
    {
      WriteHitAt(p, c, a, sel, w, x);
    }
  }

  // One operation of a port: the cache keeps showing a flat memory that only writes change, and only their bytes.
  lemma StepRefines(p: Params, c: Contents, m: Memory, op: Op)
    requires Shows(p, c, m) && op.victim < p.ways
    ensures Shows(p, Do(p, c, op), FlatStep(m, op))
  {
    hide SetOk, CleanOk, Look, Way, Special, WriteHit, Fetch, StoreWord, WordAdr;
    match op
    case Read(a, victim) => FetchShows(p, c, m, a, victim);
    case Write(a, victim, sel, w) =>
      FetchShows(p, c, m, a, victim);
      Fetches(p, c, a, victim);
      WriteShows(p, Fetch(p, c, a, victim), m, a, sel, w);
    case Writeback(a, victim) => SpecialShows(p, c, m, a, victim, false);
    case Flush(a, victim) => SpecialShows(p, c, m, a, victim, true);
  }

  ghost predicate Ops(p: Params, ops: seq<Op>) {
    forall k | 0 <= k < |ops| :: ops[k].victim < p.ways
  }

  // The word a read port delivers: from the bank on a hit, on a miss from the bus data of the replacement.
  function Delivered(p: Params, c: Contents, a: Adr): Word
    requires Sized(p, c)
  {
    if Way(p, c, a) >= 0 then c.lines[Pos(p, p.geo.Index(a), Way(p, c, a))][p.geo.Bank(a)]
      else MemLine(p, c, a)[p.geo.Bank(a)]
  }

  // The flat memory that the cache shows.
  ghost function View(p: Params, c: Contents): Memory
    requires Consistent(p, c)
  {
    (a: Adr) => Look(p, c, a)
  }

  lemma ShowsView(p: Params, c: Contents)
    requires Consistent(p, c)
    ensures Shows(p, c, View(p, c))
  {
    forall x: Adr
      ensures Look(p, c, WordAdr(x)) == Look(p, c, x)
    {
      LookOfWord(p, c, x);
      SplitComposes(p.geo, x);
    }
  }

  lemma StepConsistent(p: Params, c: Contents, op: Op)
    requires Consistent(p, c) && op.victim < p.ways
    ensures Consistent(p, Do(p, c, op))
  {
    ShowsView(p, c);
    StepRefines(p, c, View(p, c), op);
  }

  // The cache after a run, and the words that the reads of the run delivered.
  function Run(p: Params, c: Contents, ops: seq<Op>): (r: (Contents, seq<Word>))
    requires Consistent(p, c) && Ops(p, ops)
    ensures Consistent(p, r.0)
    decreases |ops|
  {
    if ops == [] then (c, [])
    else
      StepConsistent(p, c, ops[0]);
      var rest := Run(p, Do(p, c, ops[0]), ops[1..]);
      (rest.0, (if ops[0].Read? then [Delivered(p, c, ops[0].a)] else []) + rest.1)
  }

  function FlatRun(m: Memory, ops: seq<Op>): (r: (Memory, seq<Word>))
    decreases |ops|
  {
    if ops == [] then (m, [])
    else
      var rest := FlatRun(FlatStep(m, ops[0]), ops[1..]);
      (rest.0, (if ops[0].Read? then [m(WordAdr(ops[0].a))] else []) + rest.1)
  }

  lemma DeliveredIsLook(p: Params, c: Contents, a: Adr)
    requires Consistent(p, c)
    ensures Delivered(p, c, a) == Look(p, c, a)
  {
    MemPosOf(p, a);
  }

  // Over every run of reads, writes, writebacks and flushes, with any choice of victims, the reads deliver exactly
  // what a flat memory would deliver, and the cache ends up showing that memory.
  lemma {:induction false} RunRefines(p: Params, c: Contents, m: Memory, ops: seq<Op>)
    requires Shows(p, c, m) && Ops(p, ops)
    ensures Run(p, c, ops).1 == FlatRun(m, ops).1
    ensures Shows(p, Run(p, c, ops).0, FlatRun(m, ops).0)
    decreases |ops|
  {
    hide Do, FlatStep, SetOk, CleanOk, Look, Delivered, WordAdr;
    if ops != [] {
      StepRefines(p, c, m, ops[0]);
      DeliveredIsLook(p, c, ops[0].a);
      RunRefines(p, Do(p, c, ops[0]), FlatStep(m, ops[0]), ops[1..]);
    }
  }

  // After reset no tag is valid, and the cache shows bus memory.
  lemma ResetShows(p: Params, c: Contents)
    requires Sized(p, c) && forall i, w | 0 <= i < p.geo.sets && 0 <= w < p.ways ::
      !c.tags[i][w].valid && !c.tags[i][w].dirty
    ensures Shows(p, c, (a: Adr) => c.mem[a / 4])
  {
    forall x: Adr
      ensures Look(p, c, x) == c.mem[WordAdr(x) / 4]
    {
      assert WordAdr(x) / 4 == x / 4;
    }
  }
}
