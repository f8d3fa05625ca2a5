// The tag RAM, the banks, the bus interface and the ports as they change the cache in place (sysc/memu.cpp, MTagRam,
// MBankRam, MBusIf and the ports), one transaction after the other.

module CacheUnit {
  import opened Words
  import opened Address
  import opened CacheSpec
  import opened CacheProofs

  datatype CacheOp = OpReplace | OpWriteback | OpFlush

  class MCache {
    const p: Params
    const tagRam: array<seq<TagLine>>   // one entry with all ways for each set
    const bankRam: array<seq<Word>>     // bankRam[k][b] is word 'k' of bank 'b'
    var mem: seq<Word>                  // behind the bus
    var idataReg: seq<Word>             // registers of the bus interface
    var odataReg: seq<Word>

    ghost function State(): Contents
      reads this`mem, tagRam, bankRam
    {
      Contents(tagRam[..], bankRam[..], mem)
    }

    ghost predicate Valid()
      reads this, tagRam, bankRam
    {
      Consistent(p, State()) && |idataReg| == |odataReg| == p.geo.banks
    }

    // Reset: all tags are invalid and clean.
    constructor (p: Params, mem: seq<Word>, bankRam: array<seq<Word>>)
      requires p.Valid() && |mem| == MEM_WORDS
      requires bankRam.Length == p.ways * p.geo.sets
        && forall k | 0 <= k < bankRam.Length :: |bankRam[k]| == p.geo.banks
      ensures Valid() && this.p == p && this.mem == mem && this.bankRam == bankRam && fresh(tagRam)
      ensures Shows(p, State(), (a: Adr) => mem[a / 4])
    {
      this.p, this.mem, this.bankRam := p, mem, bankRam;
      tagRam := new seq<TagLine>[p.geo.sets](_ => seq(p.ways, _ => TagLine(false, false, 0)));
      idataReg, odataReg := seq(p.geo.banks, _ => ZERO_WORD), seq(p.geo.banks, _ => ZERO_WORD);
      new;
      ResetShows(p, State());
    }

    // The way that holds the line of 'a', or the victim of the replacement policy.
    method TagRead(a: Adr, victim: nat) returns (tag: CacheTag)
      requires Valid() && victim < p.ways
      ensures tag.way == TagWay(p, State(), a, victim) && tag.valid == (Way(p, State(), a) >= 0)
      ensures var t := State().tags[p.geo.Index(a)][tag.way]; tag.dirty == t.dirty && tag.tadr == t.tadr
    {
      hide CleanOk, Geometry.Index, Geometry.Tag;
      var entry := tagRam[p.geo.Index(a)];
      assert SetOk(p, State().tags[p.geo.Index(a)]);
      var way: int := -1;
      for n := 0 to p.ways
        invariant -1 <= way < n && (way >= 0 ==> entry[way].Hits(p.geo.Tag(a)))
        invariant forall v | 0 <= v < n && v != way :: !entry[v].Hits(p.geo.Tag(a))
      {
        if entry[n].Hits(p.geo.Tag(a)) {
          assert way < 0;   // same data stored in two ways
          way := n;
        }
      }
      tag := CacheTag(way >= 0, false, 0, if way >= 0 then way else victim);
      tag := tag.(dirty := entry[tag.way].dirty, tadr := entry[tag.way].tadr);
    }

    method TagWrite(a: Adr, tag: CacheTag)
      requires Sized(p, State()) && tag.way < p.ways
      modifies tagRam
      ensures State() == old(State()).(tags :=
        WithTag(p, old(State()), p.geo.Index(a), tag.way, TagLine(tag.valid, tag.dirty, tag.tadr)))
    {
      var i := p.geo.Index(a);
      tagRam[i] := tagRam[i][tag.way := TagLine(tag.valid, tag.dirty, tag.tadr)];
    }

    // The words of the line of 'a' are read from the bus, that of 'a' first, wrapping around.
    method ReadBusLine(a: Adr)
      requires Sized(p, State()) && |idataReg| == p.geo.banks
      modifies this`idataReg
      ensures idataReg == MemLine(p, State(), a)
    {
      hide Geometry.Index, Geometry.Tag, Geometry.Bank, MemPos;
      TagInRange(p.geo, a);
      var start := p.geo.Bank(a);
      var ofs := start;
      for n := 0 to p.geo.banks
        invariant |idataReg| == p.geo.banks
        invariant n < p.geo.banks ==> ofs == if start + n < p.geo.banks then start + n else start + n - p.geo.banks
        invariant forall b | 0 <= b < p.geo.banks && (start <= b < start + n || b < start + n - p.geo.banks) ::
          idataReg[b] == MemLine(p, State(), a)[b]
      {
        idataReg := idataReg[ofs := mem[MemPos(p, p.geo.Tag(a), p.geo.Index(a), ofs)]];
        ofs := if ofs + 1 < p.geo.banks then ofs + 1 else 0;
      }
    }

    // The old line is read from the banks.
    method ReadVictim(k: nat)
      requires Sized(p, State()) && |odataReg| == p.geo.banks && k < p.ways * p.geo.sets
      modifies this`odataReg
      ensures odataReg == State().lines[k]
    {
      for b := 0 to p.geo.banks
        invariant |odataReg| == p.geo.banks && forall d | 0 <= d < b :: odataReg[d] == bankRam[k][d]
      {
        odataReg := odataReg[b := bankRam[k][b]];
      }
    }

    // The new line is written to the banks.
    method FillBanks(k: nat)
      requires Sized(p, State()) && |idataReg| == p.geo.banks && k < p.ways * p.geo.sets
      modifies bankRam
      ensures State() == old(State()).(lines := old(State()).lines[k := idataReg])
    {
      for b := 0 to p.geo.banks
        invariant |bankRam[k]| == p.geo.banks
        invariant forall d | 0 <= d < b :: bankRam[k][d] == idataReg[d]
        invariant forall j | 0 <= j < bankRam.Length && j != k :: bankRam[j] == old(bankRam[j])
      {
        bankRam[k] := bankRam[k][b := idataReg[b]];
      }
      assert bankRam[k] == idataReg;
    }

    // The old line is written back to its place in memory.
    method WriteVictim(tadr: nat, index: nat)
      requires Sized(p, State()) && |odataReg| == p.geo.banks && tadr < p.geo.tags && index < p.geo.sets
      modifies this`mem
      ensures State() == old(State()).(mem := WriteLine(p, old(mem), tadr, index, odataReg, p.geo.banks))
    {
      hide MemPos;
      for n := 0 to p.geo.banks
        invariant mem == WriteLine(p, old(mem), tadr, index, odataReg, n)
      {
        mem := mem[MemPos(p, tadr, index, n) := odataReg[n]];
      }
    }

    // An invalid tag protects readers while the new line is written.
    method NewLine(a: Adr, tag: CacheTag, k: nat)
      requires Sized(p, State()) && |idataReg| == p.geo.banks && k < p.ways * p.geo.sets && tag.way < p.ways
      modifies tagRam, bankRam
      ensures State() == old(State()).(
        tags := WithTag(p, old(State()), p.geo.Index(a), tag.way, TagLine(false, tag.dirty, tag.tadr)),
        lines := old(State()).lines[k := idataReg])
      ensures Sized(p, State())
    {
      hide Geometry.Index;
      TagWrite(a, tag.(valid := false));
      FillBanks(k);
    }

    // The new tag is written; then the victim, if there is one, is written back.
    method Finish(a: Adr, t: CacheTag, writeVictim: bool, tadr: nat)
      requires Sized(p, State()) && |odataReg| == p.geo.banks && t.way < p.ways && (writeVictim ==> tadr < p.geo.tags)
      modifies tagRam, this`mem
      ensures State() == Contents(
        WithTag(p, old(State()), p.geo.Index(a), t.way, TagLine(t.valid, t.dirty, t.tadr)), old(State()).lines,
        if writeVictim then WriteLine(p, old(mem), tadr, p.geo.Index(a), odataReg, p.geo.banks) else old(mem))
    {
      hide Geometry.Index, WriteLine;
      TagWrite(a, t);
      if writeVictim {
        WriteVictim(tadr, p.geo.Index(a));
      }
    }

    // All cache operations of the bus interface.
    method BusOperation(op: CacheOp, a: Adr, victim: nat)
      requires Valid() && victim < p.ways && (op.OpReplace? ==> Way(p, State(), a) < 0)
      modifies this`mem, this`idataReg, this`odataReg, tagRam, bankRam
      ensures |idataReg| == |odataReg| == p.geo.banks
      ensures op.OpReplace? ==> State() == ReplaceLine(p, old(State()), a, victim)
      ensures op.OpReplace? ==> idataReg == MemLine(p, old(State()), a)
      ensures !op.OpReplace? ==> State() == Special(p, old(State()), a, victim, op.OpFlush?)
    {
      hide CleanOk, Geometry.Index, Geometry.Tag, Geometry.Bank, Pos, MemPos, WriteLine, MemLine, Way, WithTag;
      ghost var c := State();
      var tagReg := TagRead(a, victim);
      var k := Pos(p, p.geo.Index(a), tagReg.way);
      if op.OpReplace? {
        ReadBusLine(a);
      }
      if tagReg.dirty {
        ReadVictim(k);
        assert SetOk(p, c.tags[p.geo.Index(a)]);
      }
      assert VictimWritten(p, c, p.geo.Index(a), tagReg.way) ==
        if tagReg.dirty then WriteLine(p, mem, tagReg.tadr, p.geo.Index(a), odataReg, p.geo.banks) else mem;
      hide Consistent, SetOk, VictimWritten;
      var newTag := CacheTag(op.OpReplace? || (tagReg.valid && !op.OpFlush?), false, p.geo.Tag(a), tagReg.way);
      if op.OpReplace? {
        NewLine(a, tagReg, k);
        TwoTags(c, State(), p.geo.Index(a), tagReg.way,
                TagLine(false, tagReg.dirty, tagReg.tadr), TagLine(true, false, p.geo.Tag(a)));
      }
      Finish(a, newTag, tagReg.dirty, tagReg.tadr);
    }

    lemma TwoTags(c: Contents, d: Contents, i: nat, w: nat, t: TagLine, u: TagLine)
      requires Sized(p, c) && Sized(p, d) && i < p.geo.sets && w < p.ways && d.tags == WithTag(p, c, i, w, t)
      ensures WithTag(p, d, i, w, u) == WithTag(p, c, i, w, u)
    {
      assert d.tags[i][w := u] == c.tags[i][w := u];
    }

    // A read port delivers the word from its bank or, after a miss, from the bus interface.
    method ReadPort(a: Adr, victim: nat) returns (data: Word)
      requires Valid() && victim < p.ways
      modifies this`mem, this`idataReg, this`odataReg, tagRam, bankRam
      ensures Valid() && State() == Do(p, old(State()), Read(a, victim)) && data == Delivered(p, old(State()), a)
    {
      hide SetOk, CleanOk, Geometry.Index, Geometry.Tag, Geometry.Bank, Pos, MemLine, ReplaceLine;
      StepConsistent(p, State(), Read(a, victim));
      hide Consistent, Way;
      var tag := TagRead(a, victim);
      if tag.valid {
        data := bankRam[Pos(p, p.geo.Index(a), tag.way)][p.geo.Bank(a)];
      } else {
        BusOperation(OpReplace, a, victim);
        data := idataReg[p.geo.Bank(a)];
      }
    }

    // A write port makes sure that the line is cached, reads the old word for a part-word write, and writes the
    // combined word and the dirty tag.
    method WritePort(a: Adr, victim: nat, sel: ByteSel, w: Word)
      requires Valid() && victim < p.ways
      modifies this`mem, this`idataReg, this`odataReg, tagRam, bankRam
      ensures Valid() && State() == Do(p, old(State()), Write(a, victim, sel, w))
    {
      hide SetOk, CleanOk, Geometry.Index, Geometry.Tag, Geometry.Bank, ReplaceLine, Overlay;
      ghost var c := State();
      StepConsistent(p, c, Write(a, victim, sel, w));
      Fetches(p, c, a, victim);
      StepConsistent(p, c, Read(a, victim));
      var tag := TagRead(a, victim);
      if !tag.valid {
        BusOperation(OpReplace, a, victim);
      }
      assert State() == Fetch(p, c, a, victim);
      WriteCached(a, victim, sel, w);
    }

    // The bank part of a write.
    method BankWrite(k: nat, b: nat, sel: ByteSel, w: Word)
      requires Sized(p, State()) && k < p.ways * p.geo.sets && b < p.geo.banks
      modifies bankRam
      ensures var l := old(State()).lines;
        State() == old(State()).(lines := l[k := l[k][b := Overlay(l[k][b], w, sel)]])
    {
      hide Overlay;
      OverlayAll(bankRam[k][b], w);
      if sel == ALL_BYTES {
        bankRam[k] := bankRam[k][b := w];
      } else {
        bankRam[k] := bankRam[k][b := Overlay(bankRam[k][b], w, sel)];
      }
    }

    method WriteCached(a: Adr, victim: nat, sel: ByteSel, w: Word)
      requires Valid() && victim < p.ways && Way(p, State(), a) >= 0
      modifies tagRam, bankRam
      ensures State() == WriteHit(p, old(State()), a, sel, w)
    {
      hide SetOk, CleanOk, Geometry.Index, Geometry.Tag, Geometry.Bank, Overlay, FindWay, Pos;
      WriteHitParts(State(), a, sel, w);
      hide WriteHit, Consistent;
      var tag := TagRead(a, victim);
      BankWrite(Pos(p, p.geo.Index(a), tag.way), p.geo.Bank(a), sel, w);
      if !tag.dirty {
        TagWrite(a, CacheTag(true, true, tag.tadr, tag.way));
      }
    }

    // The tag needs to be written only if it was clean.
    lemma WriteHitParts(c: Contents, a: Adr, sel: ByteSel, w: Word)
      requires Consistent(p, c) && Way(p, c, a) >= 0
      ensures var i, way := p.geo.Index(a), Way(p, c, a);
        var k, b, t := Pos(p, i, way), p.geo.Bank(a), c.tags[i][way];
        WriteHit(p, c, a, sel, w) == Contents(
          if t.dirty then c.tags else WithTag(p, c, i, way, TagLine(true, true, t.tadr)),
          c.lines[k := c.lines[k][b := Overlay(c.lines[k][b], w, sel)]], c.mem)
    {
      hide Geometry.Index, Geometry.Tag, Geometry.Bank, Overlay, FindWay, Pos;
      var i, way := p.geo.Index(a), Way(p, c, a);
      if c.tags[i][way].dirty {
        assert c.tags[i][way] == c.tags[i][way].(dirty := true);
        assert c.tags[i][way := c.tags[i][way]] == c.tags[i] && c.tags[i := c.tags[i]] == c.tags;
      }
    }

    lemma OverlayAll(x: Word, w: Word)
      ensures Overlay(x, w, ALL_BYTES) == w
    {}

    method SpecialPort(a: Adr, victim: nat, flush: bool)
      requires Valid() && victim < p.ways
      modifies this`mem, this`idataReg, this`odataReg, tagRam, bankRam
      ensures Valid() && State() == Do(p, old(State()), if flush then Flush(a, victim) else Writeback(a, victim))
    {
      hide SetOk, CleanOk, Special;
      StepConsistent(p, State(), if flush then Flush(a, victim) else Writeback(a, victim));
      BusOperation(if flush then OpFlush else OpWriteback, a, victim);
    }

    // One transaction; a read delivers a word.
    method Execute(op: Op) returns (words: seq<Word>)
      requires Valid() && op.victim < p.ways
      modifies this`mem, this`idataReg, this`odataReg, tagRam, bankRam
      ensures Valid() && State() == Do(p, old(State()), op)
      ensures words == if op.Read? then [Delivered(p, old(State()), op.a)] else []
    {
      hide Consistent, Do, Delivered;
      words := [];
      match op
      case Read(a, victim) =>
        var data := ReadPort(a, victim);
        words := [data];
      case Write(a, victim, sel, w) => WritePort(a, victim, sel, w);
      case Writeback(a, victim) => SpecialPort(a, victim, false);
      case Flush(a, victim) => SpecialPort(a, victim, true);
    }

    // One operation of a run, on the cache and on the flat memory.
    lemma NextOp(c: Contents, m: Memory, ops: seq<Op>, k: nat)
      requires Shows(p, c, m) && Ops(p, ops) && k < |ops|
      ensures Consistent(p, c) && Shows(p, Do(p, c, ops[k]), FlatStep(m, ops[k]))
      ensures FlatRun(m, ops[k..]).0 == FlatRun(FlatStep(m, ops[k]), ops[k + 1..]).0
      ensures FlatRun(m, ops[k..]).1 ==
        (if ops[k].Read? then [Delivered(p, c, ops[k].a)] else []) + FlatRun(FlatStep(m, ops[k]), ops[k + 1..]).1
    {
      StepRefines(p, c, m, ops[k]);
      DeliveredIsLook(p, c, ops[k].a);
      assert ops[k..][0] == ops[k] && ops[k..][1..] == ops[k + 1..];
      hide Do, Delivered, FlatStep, WordAdr, SetOk, CleanOk;
    }

    // A run of transactions behaves like a flat memory.
    method ExecuteAll(ops: seq<Op>) returns (words: seq<Word>)
      requires Valid() && Ops(p, ops)
      modifies this`mem, this`idataReg, this`odataReg, tagRam, bankRam
      ensures Valid()
      ensures words == FlatRun(View(p, old(State())), ops).1
      ensures Shows(p, State(), FlatRun(View(p, old(State())), ops).0)
    {
      ghost var start := View(p, State());
      ShowsView(p, State());
      hide Do, Delivered, FlatStep, FlatRun, Shows, View, Consistent, Sized, StoreWord, WordAdr;
      ghost var m := start;
      words := [];
      for k := 0 to |ops|
        invariant Valid() && Shows(p, State(), m)
        invariant FlatRun(start, ops).0 == FlatRun(m, ops[k..]).0
        invariant FlatRun(start, ops).1 == words + FlatRun(m, ops[k..]).1
      {
        ghost var c := State();
        NextOp(c, m, ops, k);
        var w := Execute(ops[k]);
        words := words + w;
        m := FlatStep(m, ops[k]);
      }
    }
  }
}
