// The tag RAM with its delayed write-back of replacement information (sysc/memu.cpp, MTagRam::MainThread).

module TagRam {
  import opened Words
  import opened Address
  import opened CacheSpec
  import opened Lru

  datatype TagEntry = TagEntry(lines: seq<TagLine>, use: bv8)

  // 'use' names all ways in some order.
  ghost predicate UseOk(ways: nat, use: bv8)
    requires Supported(ways)
  {
    exists order :: IsOrder(ways, order) && Encodes(ways, use, order)
  }

  lemma NewUseOk(ways: nat, use: bv8, way: nat)
    requires Supported(ways) && way < ways && UseOk(ways, use)
    ensures UseOk(ways, NewUse(ways, use, way))
  {
    var order :| IsOrder(ways, order) && Encodes(ways, use, order);
    NewUseEncodes(ways, use, order, way);
  }

  // The way that has just been accessed is not the next to be replaced.
  lemma VictimNotJustUsed(ways: nat, use: bv8, way: nat)
    requires Supported(ways) && way < ways && ways > 1 && UseOk(ways, use)
    ensures Victim(ways, NewUse(ways, use, way)) != way
  {
    hide NewUse;
    var order :| IsOrder(ways, order) && Encodes(ways, use, order);
    NewUseEncodes(ways, use, order, way);
    VictimIsFirst(ways, NewUse(ways, use, way), MoveToBack(order, way));
    var k := OrderHasAll(ways, order, way);
    MoveToBackAt(order, k);
  }

  lemma ResetUseOk(ways: nat)
    requires Supported(ways)
    ensures UseOk(ways, ResetUse(ways))
  {
    ResetEncodes(ways);
  }

  // The tag delivered for a read: the hit, or the least recently used way.
  function TagFor(ways: nat, e: TagEntry, tag: nat): CacheTag
    requires Supported(ways) && |e.lines| == ways
  {
    var w := FindWay(e.lines, tag, 0);
    var way := if w >= 0 then w else Victim(ways, e.use);
    CacheTag(w >= 0, e.lines[way].dirty, e.lines[way].tadr, way)
  }

  // Replacement information to be written back: use_reg, use_iadr_reg and use_wr_reg of a port.
  datatype Pending = Pending(use: bv8, iadr: nat, wr: bool)

  // What a read leaves pending at its port: the new use word of a hit, if it differs from the old one.
  function PendingFor(ways: nat, e: TagEntry, tag: nat, iadr: nat, old': Pending): Pending
    requires Supported(ways) && |e.lines| == ways
  {
    var w := FindWay(e.lines, tag, 0);
    if w < 0 then old'
    else if NewUse(ways, e.use, w) != e.use then Pending(NewUse(ways, e.use, w), iadr, true)
    else old'.(wr := false)
  }

  // The first pending write-back from port 'k' on, or -1.
  function FirstPending(q: seq<Pending>, k: nat): (n: int)
    requires k <= |q|
    ensures n == -1 || (k <= n < |q| && q[n].wr)
    decreases |q| - k
  {
    if k == |q| then -1 else if q[k].wr then k else FirstPending(q, k + 1)
  }

  // No tag is valid in two ways.
  ghost predicate NoDoubles(lines: seq<TagLine>) {
    forall v, w | 0 <= v < w < |lines| :: lines[v].valid && lines[w].valid ==> lines[v].tadr != lines[w].tadr
  }

  // ---------- What is delivered and what is noted, by the order of the ways ----------

  // 'use' encodes the order in which the ways have been accessed.
  ghost predicate Ordered(ways: nat, use: bv8, order: seq<nat>)
    requires Supported(ways)
  {
    IsOrder(ways, order) && Encodes(ways, use, order)
  }

  // A hit is the way that holds the line, and a miss gets the first way of the order, with its own dirty bit and tag.
  ghost predicate Delivers(ways: nat, e: TagEntry, tag: nat, order: seq<nat>, t: CacheTag)
    requires |e.lines| == ways && |order| == ways
  {
    && t.way < ways && t.dirty == e.lines[t.way].dirty && t.tadr == e.lines[t.way].tadr
    && (t.valid <==> exists w :: 0 <= w < ways && e.lines[w].Hits(tag))
    && (if t.valid then e.lines[t.way].Hits(tag) else ways > 0 && t.way == order[0])
  }

  // A hit makes its way the last of the order: the new use word is noted for write-back unless it is the old one. A
  // miss notes nothing.
  ghost predicate Notes(ways: nat, e: TagEntry, tag: nat, iadr: nat, order: seq<nat>, q: Pending, q': Pending)
    requires Supported(ways) && |e.lines| == ways
  {
    && (forall w | 0 <= w < ways && e.lines[w].Hits(tag) :: NoDoubles(e.lines) ==>
        var order' := MoveToBack(order, w);
        && |order'| == ways && order'[ways - 1] == w
        && Ordered(ways, if q'.wr then q'.use else e.use, order') && (q'.wr ==> q'.iadr == iadr))
    && ((forall w | 0 <= w < ways :: !e.lines[w].Hits(tag)) ==> q' == q)
  }

  lemma TagForDelivers(ways: nat, e: TagEntry, tag: nat, order: seq<nat>)
    requires Supported(ways) && |e.lines| == ways && Ordered(ways, e.use, order)
    ensures Delivers(ways, e, tag, order, TagFor(ways, e, tag))
  {
    VictimIsFirst(ways, e.use, order);
    hide Victim, Encodes;
  }

  lemma PendingForNotes(ways: nat, e: TagEntry, tag: nat, iadr: nat, q: Pending, order: seq<nat>)
    requires Supported(ways) && |e.lines| == ways && Ordered(ways, e.use, order)
    ensures Notes(ways, e, tag, iadr, order, q, PendingFor(ways, e, tag, iadr, q))
  {
    hide NewUse, Encodes;
    forall w | 0 <= w < ways && e.lines[w].Hits(tag) && NoDoubles(e.lines)
      ensures w == FindWay(e.lines, tag, 0)
      ensures var order' := MoveToBack(order, w);
        |order'| == ways && order'[ways - 1] == w && Ordered(ways, NewUse(ways, e.use, w), order')
    {
      NewUseEncodes(ways, e.use, order, w);
      var k := OrderHasAll(ways, order, w);
      MoveToBackAt(order, k);
    }
  }

  // ---------- One cycle ----------

  datatype RamState = RamState(ram: seq<TagEntry>, pending: seq<Pending>)

  // Reads and writes of all ports; 'adr' and 'tagIn' are those of the port.
  datatype RamIn = RamIn(rd: seq<bool>, wr: seq<bool>, adr: seq<Adr>, tagIn: seq<CacheTag>)

  ghost predicate RamSized(p: Params, s: RamState) {
    && p.Valid() && Supported(p.ways) && |s.ram| == p.geo.sets
    && (forall i | 0 <= i < |s.ram| :: |s.ram[i].lines| == p.ways)
    && (forall n | 0 <= n < |s.pending| :: s.pending[n].iadr < p.geo.sets)
  }

  // Only one port writes, and no tag that is looked for is valid in two ways.
  ghost predicate RamLegal(p: Params, s: RamState, i: RamIn) {
    && RamSized(p, s) && |i.rd| == |i.wr| == |i.adr| == |i.tagIn| == |s.pending|
    && (forall n | 0 <= n < |i.rd| && i.rd[n] :: NoDoubles(s.ram[p.geo.Index(i.adr[n])].lines))
    && (forall m, n | 0 <= m < n < |i.wr| :: !(i.wr[m] && i.wr[n]))
    && (forall n | 0 <= n < |i.wr| && i.wr[n] :: i.tagIn[n].way < p.ways)
  }

  // What each read delivers and notes follows the order of the ways that its set encodes.
  ghost predicate InOrder(p: Params, s: RamState, rd: seq<bool>, adr: seq<Adr>, out: seq<CacheTag>, next: seq<Pending>)
    requires RamSized(p, s) && |rd| == |adr| == |out| == |next| == |s.pending|
  {
    forall n, order | 0 <= n < |rd| && rd[n] && Ordered(p.ways, s.ram[p.geo.Index(adr[n])].use, order) ::
      var i, tag := p.geo.Index(adr[n]), p.geo.Tag(adr[n]);
      && Delivers(p.ways, s.ram[i], tag, order, out[n])
      && Notes(p.ways, s.ram[i], tag, i, order, s.pending[n], next[n])
  }

  lemma ReadsInOrder(p: Params, s: RamState, rd: seq<bool>, adr: seq<Adr>, out: seq<CacheTag>, next: seq<Pending>)
    requires RamSized(p, s) && |rd| == |adr| == |out| == |next| == |s.pending|
    requires forall n | 0 <= n < |rd| && rd[n] ::
      var i := p.geo.Index(adr[n]);
      && out[n] == TagFor(p.ways, s.ram[i], p.geo.Tag(adr[n]))
      && next[n] == PendingFor(p.ways, s.ram[i], p.geo.Tag(adr[n]), i, s.pending[n])
    ensures InOrder(p, s, rd, adr, out, next)
  {
    hide Encodes, Delivers, Notes, TagFor, PendingFor, Geometry.Index, Geometry.Tag;
    forall n, order | 0 <= n < |rd| && rd[n] && Ordered(p.ways, s.ram[p.geo.Index(adr[n])].use, order)
      ensures var i, tag := p.geo.Index(adr[n]), p.geo.Tag(adr[n]);
        && Delivers(p.ways, s.ram[i], tag, order, out[n])
        && Notes(p.ways, s.ram[i], tag, i, order, s.pending[n], next[n])
    {
      var i, tag := p.geo.Index(adr[n]), p.geo.Tag(adr[n]);
      TagForDelivers(p.ways, s.ram[i], tag, order);
      PendingForNotes(p.ways, s.ram[i], tag, i, s.pending[n], order);
    }
  }

  ghost predicate NoWrite(wr: seq<bool>) {
    forall n | 0 <= n < |wr| :: !wr[n]
  }

  // What port 'n' has pending after its read, if there is one.
  function AfterRead(p: Params, s: RamState, i: RamIn, n: nat): Pending
    requires RamLegal(p, s, i) && n < |i.rd|
  {
    var x := p.geo.Index(i.adr[n]);
    if i.rd[n] then PendingFor(p.ways, s.ram[x], p.geo.Tag(i.adr[n]), x, s.pending[n]) else s.pending[n]
  }

  // A tag write, which takes two cycles, or else the write-back of one pending use. Only a tag write changes tags, and
  // exactly the one it addresses; reads see the RAM as it was before.
  ghost predicate RamStep(p: Params, s: RamState, i: RamIn, t: RamState, out: seq<CacheTag>)
    requires RamLegal(p, s, i)
  {
    && |t.ram| == |s.ram| && |t.pending| == |out| == |s.pending|
    && (forall n | 0 <= n < |out| && i.rd[n] ::
        out[n] == TagFor(p.ways, s.ram[p.geo.Index(i.adr[n])], p.geo.Tag(i.adr[n])))
    && (forall n | 0 <= n < |i.wr| && i.wr[n] :: TagIsWritten(p, s, i, t.ram, n))
    && (NoWrite(i.wr) ==> UseIsWritten(s, t.ram))
    && (forall n | 0 <= n < |t.pending| ::
        t.pending[n] == if NoWrite(i.wr) && n == FirstPending(s.pending, 0) then AfterRead(p, s, i, n).(wr := false)
          else AfterRead(p, s, i, n))
  }

  // A step from its parts: what the reads deliver and note, and what is written.
  lemma StepOfParts(p: Params, s: RamState, i: RamIn, t: RamState, out: seq<CacheTag>, next: seq<Pending>, w: int)
    requires RamLegal(p, s, i) && |out| == |next| == |t.pending| == |s.pending| && |t.ram| == |s.ram|
    requires forall n | 0 <= n < |out| && i.rd[n] ::
      out[n] == TagFor(p.ways, s.ram[p.geo.Index(i.adr[n])], p.geo.Tag(i.adr[n]))
    requires forall n | 0 <= n < |next| :: next[n] == AfterRead(p, s, i, n)
    requires if NoWrite(i.wr) then UseIsWritten(s, t.ram)
      else 0 <= w < |i.wr| && i.wr[w] && TagIsWritten(p, s, i, t.ram, w)
    requires var k := FirstPending(s.pending, 0);
      t.pending == if NoWrite(i.wr) && k >= 0 then next[k := next[k].(wr := false)] else next
    ensures RamStep(p, s, i, t, out)
  {
    hide TagFor, AfterRead, UseIsWritten, TagIsWritten, FirstPending, Geometry.Index, Geometry.Tag, NoDoubles;
  }

  ghost predicate TagIsWritten(p: Params, s: RamState, i: RamIn, ram: seq<TagEntry>, n: nat)
    requires RamLegal(p, s, i) && |ram| == |s.ram| && n < |i.wr| && i.wr[n]
  {
    var x, g := p.geo.Index(i.adr[n]), i.tagIn[n];
    && ram[x].lines == s.ram[x].lines[g.way := TagLine(g.valid, g.dirty, g.tadr)]
    && ram[x].use == NewUse(p.ways, s.ram[x].use, g.way)
    && forall j | 0 <= j < |ram| && j != x :: ram[j] == s.ram[j]
  }

  ghost predicate UseIsWritten(s: RamState, ram: seq<TagEntry>)
    requires |ram| == |s.ram|
  {
    var k := FirstPending(s.pending, 0);
    forall j | 0 <= j < |ram| ::
      ram[j] == if k >= 0 && j == s.pending[k].iadr then s.ram[j].(use := s.pending[k].use) else s.ram[j]
  }

  class MTagRam {
    const p: Params
    const ports: nat               // TR_PORTS
    const ram: array<TagEntry>
    var pending: seq<Pending>

    ghost function Regs(): RamState
      reads this`pending, ram
    {
      RamState(ram[..], pending)
    }

    ghost predicate Sized()
      reads this, ram
    {
      && p.Valid() && Supported(p.ways) && ram.Length == p.geo.sets
      && (forall i | 0 <= i < ram.Length :: |ram[i].lines| == p.ways)
      && |pending| == ports && (forall n | 0 <= n < ports :: pending[n].iadr < p.geo.sets)
    }

    // Every stored and every pending 'use' is a list of distinct ways.
    ghost predicate Valid()
      reads this, ram
    {
      && Sized()
      && (forall i | 0 <= i < ram.Length :: UseOk(p.ways, ram[i].use))
      && (forall n | 0 <= n < ports && pending[n].wr :: UseOk(p.ways, pending[n].use))
    }

    constructor (p: Params, ports: nat)
      requires p.Valid() && Supported(p.ways)
      ensures Valid() && this.p == p && this.ports == ports && fresh(ram)
      ensures forall i, w | 0 <= i < p.geo.sets && 0 <= w < p.ways :: !ram[i].lines[w].valid && !ram[i].lines[w].dirty
    {
      this.p, this.ports := p, ports;
      ram := new TagEntry[p.geo.sets](_ => TagEntry(seq(p.ways, _ => TagLine(false, false, 0)), ResetUse(p.ways)));
      pending := seq(ports, _ => Pending(0, 0, false));
      new;
      ResetUseOk(p.ways);
    }

    method FindHit(entry: TagEntry, tag: nat) returns (way: int)
      requires |entry.lines| == p.ways && NoDoubles(entry.lines)
      ensures way == FindWay(entry.lines, tag, 0)
    {
      way := -1;
      for n := 0 to p.ways
        invariant -1 <= way < n && (way >= 0 ==> entry.lines[way].Hits(tag))
        invariant forall v | 0 <= v < n && v != way :: !entry.lines[v].Hits(tag)
      {
        if entry.lines[n].Hits(tag) {
          assert way < 0;   // same data stored in two ways
          way := n;
        }
      }
    }

    // The read accesses of all ports, and what is pending for the next cycle.
    method ReadAccess(rd: seq<bool>, adr: seq<Adr>) returns (tagOut: seq<CacheTag>, next: seq<Pending>)
      requires Valid() && |rd| == |adr| == ports
      requires forall n | 0 <= n < ports && rd[n] :: NoDoubles(ram[p.geo.Index(adr[n])].lines)
      ensures |tagOut| == |next| == ports
      ensures forall n | 0 <= n < ports && rd[n] ::
        var i := p.geo.Index(adr[n]);
        && tagOut[n] == TagFor(p.ways, ram[i], p.geo.Tag(adr[n]))
        && next[n] == PendingFor(p.ways, ram[i], p.geo.Tag(adr[n]), i, pending[n])
      ensures forall n | 0 <= n < ports && !rd[n] :: next[n] == pending[n]
      ensures forall n | 0 <= n < ports :: next[n].iadr < p.geo.sets && (next[n].wr ==> UseOk(p.ways, next[n].use))
      // by the order of the ways that the use word encodes
      ensures InOrder(p, Regs(), rd, adr, tagOut, next)
    {
      hide Geometry.Index, Geometry.Tag, UseOk, NewUse, Victim, FindWay, InOrder;
      tagOut, next := seq(ports, _ => CacheTag(false, false, 0, 0)), pending;
      for n := 0 to ports
        invariant |tagOut| == |next| == ports
        invariant forall k | 0 <= k < n && rd[k] ::
          var i := p.geo.Index(adr[k]);
          && tagOut[k] == TagFor(p.ways, ram[i], p.geo.Tag(adr[k]))
          && next[k] == PendingFor(p.ways, ram[i], p.geo.Tag(adr[k]), i, pending[k])
        invariant forall k | 0 <= k < ports && (k >= n || !rd[k]) :: next[k] == pending[k]
        invariant forall k | 0 <= k < ports :: next[k].iadr < p.geo.sets && (next[k].wr ==> UseOk(p.ways, next[k].use))
      {
        if rd[n] {
          var i := p.geo.Index(adr[n]);
          var entry := ram[i];
          var way := FindHit(entry, p.geo.Tag(adr[n]));
          if way >= 0 {
            var newUse := GetNewUse(p.ways, entry.use, way);
            NewUseOk(p.ways, entry.use, way);
            if newUse != entry.use {
              next := next[n := Pending(newUse, i, true)];
            } else {
              next := next[n := next[n].(wr := false)];
            }
          }
          var w := if way >= 0 then way else Victim(p.ways, entry.use);
          tagOut := tagOut[n := CacheTag(way >= 0, entry.lines[w].dirty, entry.lines[w].tadr, w)];
        }
      }
      ReadsInOrder(p, Regs(), rd, adr, tagOut, next);
    }

    // The first port with a pending write-back, or -1.
    method FindPending() returns (k: int)
      ensures k == FirstPending(pending, 0)
    {
      for n := 0 to |pending|
        invariant FirstPending(pending, n) == FirstPending(pending, 0)
      {
        if pending[n].wr {
          return n;
        }
      }
      return -1;
    }

    // The only port that writes a tag, or -1.
    static method Writer(wr: seq<bool>) returns (w: int)
      requires forall m, n | 0 <= m < n < |wr| :: !(wr[m] && wr[n])
      ensures w == -1 || (0 <= w < |wr| && wr[w])
      ensures w == -1 <==> forall n | 0 <= n < |wr| :: !wr[n]
    {
      w := -1;
      for n := 0 to |wr|
        invariant -1 <= w < n && (w >= 0 ==> wr[w]) && forall j | 0 <= j < n && j != w :: !wr[j]
      {
        if wr[n] {
          assert w == -1;   // multiple tag write signals asserted
          w := n;
        }
      }
    }

    // The tag at an address is replaced, and its way becomes the last accessed one.
    method WriteTag(adr: Adr, tag: CacheTag)
      requires Valid() && tag.way < p.ways
      modifies ram
      ensures Valid()
      ensures forall i, n | RamLegal(p, old(Regs()), i) && 0 <= n < ports && i.wr[n] && i.adr[n] == adr
        && i.tagIn[n] == tag ::
        TagIsWritten(p, old(Regs()), i, ram[..], n)
    {
      hide Geometry.Index, NewUse, UseOk;
      var x := p.geo.Index(adr);
      var newUse := GetNewUse(p.ways, ram[x].use, tag.way);
      NewUseOk(p.ways, ram[x].use, tag.way);
      ram[x] := TagEntry(ram[x].lines[tag.way := TagLine(tag.valid, tag.dirty, tag.tadr)], newUse);
    }

    // The first pending use word is written back.
    method WriteBack() returns (k: int)
      requires Valid()
      modifies ram
      ensures Valid() && k == FirstPending(pending, 0) && UseIsWritten(old(Regs()), ram[..])
    {
      hide UseOk;
      k := FindPending();
      if k >= 0 {
        ram[pending[k].iadr] := ram[pending[k].iadr].(use := pending[k].use);
      }
    }

    // The accesses of one cycle. What each read gets follows the order of the ways that its set encodes.
    method Cycle(i: RamIn) returns (tagOut: seq<CacheTag>, ghost noted: seq<Pending>)
      requires Valid() && RamLegal(p, Regs(), i)
      modifies this`pending, ram
      ensures Valid() && RamStep(p, old(Regs()), i, Regs(), tagOut)
      ensures |noted| == ports && InOrder(p, old(Regs()), i.rd, i.adr, tagOut, noted)
    {
      hide Geometry.Index, Geometry.Tag, UseOk, TagFor, PendingFor, FirstPending, NoDoubles;
      hide InOrder, UseIsWritten, TagIsWritten, RamStep, NewUse, Victim, FindWay;
      ghost var s := Regs();
      var next;
      tagOut, next := ReadAccess(i.rd, i.adr);
      noted := next;
      assert forall n | 0 <= n < ports :: noted[n] == AfterRead(p, s, i, n);
      hide AfterRead;
      var w := Writer(i.wr);
      assert Regs() == s;
      if w >= 0 {
        WriteTag(i.adr[w], i.tagIn[w]);
      } else {
        w := WriteBack();
        if w >= 0 {
          next := next[w := next[w].(wr := false)];
        }
      }
      pending := next;
      StepOfParts(p, s, i, Regs(), tagOut, noted, w);
    }
  }
}
