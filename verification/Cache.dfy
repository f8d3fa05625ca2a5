// The shared cache at the level of whole transactions: tag entries, bank words and bus memory before and after each
// operation of a port or of the bus interface (sysc/memu.cpp). The replacement policy may choose any way.

module CacheSpec {
  import opened Words
  import opened Address

  const MEM_WORDS := 0x4000_0000

  datatype TagLine = TagLine(valid: bool, dirty: bool, tadr: nat) {
    predicate Hits(tag: nat) {
      valid && tadr == tag
    }
  }

  datatype Params = Params(geo: Geometry, ways: nat) {
    ghost predicate Valid() {
      geo.Valid() && ways > 0
    }
  }

  // tags[i][w] is way 'w' of set 'i'; lines[k][b] is word 'k' of bank 'b'; mem[a / 4] is the bus word at 'a'.
  datatype Contents = Contents(tags: seq<seq<TagLine>>, lines: seq<seq<Word>>, mem: seq<Word>)

  ghost predicate Sized(p: Params, c: Contents) {
    && p.Valid()
    && |c.tags| == p.geo.sets && (forall i | 0 <= i < |c.tags| :: |c.tags[i]| == p.ways)
    && |c.lines| == p.ways * p.geo.sets && (forall k | 0 <= k < |c.lines| :: |c.lines[k]| == p.geo.banks)
    && |c.mem| == MEM_WORDS
  }

  // The word number of a line in the banks: index | way << CACHE_SETS_LD.
  function Pos(p: Params, index: nat, way: nat): (k: nat)
    requires p.Valid() && index < p.geo.sets && way < p.ways
    ensures k < p.ways * p.geo.sets
  {
    ProductBelow(way, index, p.ways, p.geo.sets);
    way * p.geo.sets + index
  }

  lemma PosInjective(p: Params, i: nat, w: nat, j: nat, v: nat)
    requires p.Valid() && i < p.geo.sets && j < p.geo.sets && w < p.ways && v < p.ways
    requires Pos(p, i, w) == Pos(p, j, v)
    ensures i == j && w == v
  {
    DivModOf(w, i, p.geo.sets);
    DivModOf(v, j, p.geo.sets);
  }

  // The word number in bus memory of word 'bank' of a line.
  function MemPos(p: Params, tag: nat, index: nat, bank: nat): (k: nat)
    requires p.Valid() && tag < p.geo.tags && index < p.geo.sets && bank < p.geo.banks
    ensures k < MEM_WORDS
  {
    p.geo.Compose(tag, index, bank) / 4
  }

  lemma MemPosOf(p: Params, a: Adr)
    requires p.Valid()
    ensures p.geo.Tag(a) < p.geo.tags && MemPos(p, p.geo.Tag(a), p.geo.Index(a), p.geo.Bank(a)) == a / 4
  {
    SplitComposes(p.geo, a);
  }

  // The first way from 'k' on that holds 'tag', or -1.
  function FindWay(e: seq<TagLine>, tag: nat, k: nat): (w: int)
    requires k <= |e|
    ensures w == -1 || (k <= w < |e| && e[w].Hits(tag))
    ensures w == -1 <==> forall v | k <= v < |e| :: !e[v].Hits(tag)
    decreases |e| - k
  {
    if k == |e| then -1 else if e[k].Hits(tag) then k else FindWay(e, tag, k + 1)
  }

  function Way(p: Params, c: Contents, a: Adr): (w: int)
    requires Sized(p, c)
    ensures w == -1 || (0 <= w < p.ways && c.tags[p.geo.Index(a)][w].Hits(p.geo.Tag(a)))
    ensures w == -1 <==> forall v | 0 <= v < p.ways :: !c.tags[p.geo.Index(a)][v].Hits(p.geo.Tag(a))
  {
    FindWay(c.tags[p.geo.Index(a)], p.geo.Tag(a), 0)
  }

  // The value of memory as the CPUs see it: the valid cached word or else the bus word.
  function Look(p: Params, c: Contents, a: Adr): Word
    requires Sized(p, c)
  {
    var w := Way(p, c, a);
    if w >= 0 then c.lines[Pos(p, p.geo.Index(a), w)][p.geo.Bank(a)] else c.mem[a / 4]
  }

  // No line is cached twice, only valid lines are dirty, and clean lines equal memory.
  ghost predicate SetOk(p: Params, e: seq<TagLine>)
    requires |e| == p.ways
  {
    && (forall v, w | 0 <= v < w < p.ways :: e[v].valid && e[w].valid ==> e[v].tadr != e[w].tadr)
    && (forall w | 0 <= w < p.ways :: e[w].dirty ==> e[w].valid)
    && (forall w | 0 <= w < p.ways :: e[w].valid ==> e[w].tadr < p.geo.tags)
  }

  ghost predicate CleanOk(p: Params, c: Contents, i: nat, w: nat)
    requires Sized(p, c) && i < p.geo.sets && w < p.ways && SetOk(p, c.tags[i])
  {
    c.tags[i][w].valid && !c.tags[i][w].dirty ==>
      forall b | 0 <= b < p.geo.banks :: c.lines[Pos(p, i, w)][b] == c.mem[MemPos(p, c.tags[i][w].tadr, i, b)]
  }

  ghost predicate Consistent(p: Params, c: Contents) {
    && Sized(p, c)
    && (forall i | 0 <= i < p.geo.sets :: SetOk(p, c.tags[i]))
    && (forall i, w | 0 <= i < p.geo.sets && 0 <= w < p.ways :: CleanOk(p, c, i, w))
  }

  // ---------- Operations ----------

  // 'mem' after the first 'n' words of a line have been written back.
  function WriteLine(p: Params, mem: seq<Word>, tag: nat, index: nat, words: seq<Word>, n: nat): (r: seq<Word>)
    requires p.Valid() && |mem| == MEM_WORDS && tag < p.geo.tags && index < p.geo.sets && n <= |words| == p.geo.banks
    ensures |r| == MEM_WORDS
  {
    if n == 0 then mem
    else WriteLine(p, mem, tag, index, words, n - 1)[MemPos(p, tag, index, n - 1) := words[n - 1]]
  }

  // Bus memory after the line in way 'w' of set 'i' has been written back if it is dirty.
  function VictimWritten(p: Params, c: Contents, i: nat, w: nat): (r: seq<Word>)
    requires Consistent(p, c) && i < p.geo.sets && w < p.ways
    ensures |r| == MEM_WORDS
  {
    if c.tags[i][w].dirty then WriteLine(p, c.mem, c.tags[i][w].tadr, i, c.lines[Pos(p, i, w)], p.geo.banks) else c.mem
  }

  function WithTag(p: Params, c: Contents, i: nat, w: nat, t: TagLine): seq<seq<TagLine>>
    requires Sized(p, c) && i < p.geo.sets && w < p.ways
  {
    c.tags[i := c.tags[i][w := t]]
  }

  function MemLine(p: Params, c: Contents, a: Adr): (l: seq<Word>)
    requires Sized(p, c)
    ensures |l| == p.geo.banks
  {
    TagInRange(p.geo, a);
    seq(p.geo.banks, b requires 0 <= b < p.geo.banks => c.mem[MemPos(p, p.geo.Tag(a), p.geo.Index(a), b)])
  }

  // The way that the tag RAM returns: the hit, or the victim chosen by the replacement policy.
  function TagWay(p: Params, c: Contents, a: Adr, victim: nat): (w: nat)
    requires Sized(p, c) && victim < p.ways
    ensures w < p.ways
  {
    if Way(p, c, a) >= 0 then Way(p, c, a) else victim
  }

  // The bus interface loads the line of 'a' into way 'victim'. The ports ask for this only after a miss.
  function ReplaceLine(p: Params, c: Contents, a: Adr, victim: nat): (r: Contents)
    requires Consistent(p, c) && victim < p.ways && Way(p, c, a) < 0
    ensures Sized(p, r)
  {
    var i := p.geo.Index(a);
    Contents(WithTag(p, c, i, victim, TagLine(true, false, p.geo.Tag(a))),
             c.lines[Pos(p, i, victim) := MemLine(p, c, a)], VictimWritten(p, c, i, victim))
  }

  // Writeback and flush. On a miss the tag RAM returns the least recently used way, which is then evicted.
  function Special(p: Params, c: Contents, a: Adr, victim: nat, flush: bool): (r: Contents)
    requires Consistent(p, c) && victim < p.ways
    ensures Sized(p, r)
  {
    var i, w := p.geo.Index(a), TagWay(p, c, a, victim);
    Contents(WithTag(p, c, i, w, TagLine(Way(p, c, a) >= 0 && !flush, false, p.geo.Tag(a))), c.lines,
      VictimWritten(p, c, i, w))
  }

  // A write to a cached line: the selected bytes of the word are replaced and the line becomes dirty.
  function WriteHit(p: Params, c: Contents, a: Adr, sel: ByteSel, w: Word): (r: Contents)
    requires Sized(p, c) && Way(p, c, a) >= 0
    ensures Sized(p, r)
  {
    var i, way := p.geo.Index(a), Way(p, c, a);
    var k, b := Pos(p, i, way), p.geo.Bank(a);
    Contents(WithTag(p, c, i, way, c.tags[i][way].(dirty := true)),
             c.lines[k := c.lines[k][b := Overlay(c.lines[k][b], w, sel)]], c.mem)
  }

  datatype Op =
    | Read(a: Adr, victim: nat)
    | Write(a: Adr, victim: nat, sel: ByteSel, w: Word)
    | Writeback(a: Adr, victim: nat)
    | Flush(a: Adr, victim: nat)

  // The line of 'a' is in the cache afterwards.
  function Fetch(p: Params, c: Contents, a: Adr, victim: nat): (r: Contents)
    requires Consistent(p, c) && victim < p.ways
    ensures Sized(p, r)
  {
    if Way(p, c, a) >= 0 then c else ReplaceLine(p, c, a, victim)
  }

  function Do(p: Params, c: Contents, op: Op): (r: Contents)
    requires Consistent(p, c) && op.victim < p.ways
    ensures Sized(p, r)
  {
    match op
    case Read(a, victim) => Fetch(p, c, a, victim)
    case Write(a, victim, sel, w) =>
      Fetches(p, c, a, victim);
      WriteHit(p, Fetch(p, c, a, victim), a, sel, w)
    case Writeback(a, victim) => Special(p, c, a, victim, false)
    case Flush(a, victim) => Special(p, c, a, victim, true)
  }

  lemma Fetches(p: Params, c: Contents, a: Adr, victim: nat)
    requires Consistent(p, c) && victim < p.ways
    ensures Way(p, Fetch(p, c, a, victim), a) >= 0
  {
    var r := Fetch(p, c, a, victim);
    assert Way(p, c, a) < 0 ==> r.tags[p.geo.Index(a)][victim].Hits(p.geo.Tag(a));
  }
}
