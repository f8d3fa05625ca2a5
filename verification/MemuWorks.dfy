// Nothing stays idle that a port asks for, in every cycle of every run: the arbiter answers the requests of the ports
// for just the bank, the tag RAM port, the bus interface and the set that they ask for.

module MemuWorks {
  import opened Address
  import opened ArbiterSpec
  import opened BankArbiter
  import opened WritePortSpec
  import opened ReadPortSpec
  import opened BusIfSpec
  import opened MemuSpec
  import opened MemuProofs
  import opened MemuBanks
  import opened MemuTags
  import opened MemuSafety

  lemma GrantsParts(c: Config, s: State, i: Inputs)
    requires Legal(c, s, i)
    ensures var g := GrantsOf(c, s, i);
      && (s.tagReady ==> g.tagr == TagReadGrants(s.tagr, TagrReqs(c, s, i), TagwReqs(c, s, i), c.n))
      && (s.tagReady ==> g.tagw == TagWriteGrants(s.tagw, TagwReqs(c, s, i), g.tagr, c.n, i.prio))
      && g.busif == BusIfGrants(s.busif, BusifReqs(c, s, i), c.n, i.prio)
      && g.linelock == LineLockGrants(s.linelock, LinelockReqs(c, s, i, g.banks), WorkIndices(c, s, i), i.prio)
      && forall b | 0 <= b < c.geo.banks ::
          g.banks[b] == BankGrants(s.banks[b], BankReqs(c, s, i, b), WayIndices(c, s, i), c.n, i.prio)
  {
    hide TagrReqs, TagwReqs, BusifReqs, BankReqs, LinelockReqs, WorkIndices, WayIndices, TagReadGrants, TagWriteGrants;
    hide BusIfGrants, LineLockGrants, BankGrants, SameRequest;
  }

  // ---------- Banks ----------

  // Bank 'b' is asked for on line 'l': some port of that RAM port is granted the bank, and so is every reader that
  // wants the same word.
  lemma BankIsServed(c: Config, tr: seq<State>, ins: seq<Inputs>, k: nat, b: nat, l: nat) returns (w: nat)
    requires Run(c, tr, ins) && k < |ins| && b < c.geo.banks && l <= 3 * c.n
    requires Legal(c, tr[k], ins[k]) && BankReqs(c, tr[k], ins[k], b)[l]
    ensures w <= 3 * c.n && RamPort(w, c.n) == RamPort(l, c.n) && GrantsAt(c, tr, ins, k).banks[b][w]
    ensures forall q | 0 <= q < 2 * c.n && RamPort(q, c.n) == RamPort(l, c.n) && BankReqs(c, tr[k], ins[k], b)[q] ::
      WayIndices(c, tr[k], ins[k])[q] == WayIndices(c, tr[k], ins[k])[w] ==> GrantsAt(c, tr, ins, k).banks[b][q]
  {
    hide BankReqs, WayIndices, BankGrants, GrantsOf, Step, Initial, BankConsistent, RamPort, Advances, Granted;
    RunCycle(c, tr, ins, k);
    GrantsParts(c, tr[k], ins[k]);
    KeptBanksConsistent(c, tr[k], ins[k], b);
    w := BankWorks(tr[k].banks[b], BankReqs(c, tr[k], ins[k], b), WayIndices(c, tr[k], ins[k]), c.n, ins[k].prio, l);
  }

  // A read port that wants its bank finds the RAM port of its bank working, and is granted it unless another address is
  // driven.
  lemma ReaderFindsBank(c: Config, tr: seq<State>, ins: seq<Inputs>, k: nat, p: nat) returns (w: nat)
    requires Run(c, tr, ins) && k < |ins| && p < 2 * c.n && Legal(c, tr[k], ins[k])
    requires RReqBank(tr[k].rp[p], ins[k].rp[p])
    ensures w <= 3 * c.n && RamPort(w, c.n) == RamPort(p, c.n)
    ensures var a, g := ins[k].rp[p].adr, GrantsAt(c, tr, ins, k).banks[c.geo.Bank(ins[k].rp[p].adr)];
      g[w] && (g[p] || WayIndices(c, tr[k], ins[k])[w] != c.geo.WayIndex(a, ins[k].rp[p].tag.way))
  {
    hide GrantsOf, Step, Initial, RamPort, Geometry.Bank, Geometry.WayIndex, RReqBank;
    var b := c.geo.Bank(ins[k].rp[p].adr);
    assert BankReqs(c, tr[k], ins[k], b)[p];
    assert WayIndices(c, tr[k], ins[k])[p] == c.geo.WayIndex(ins[k].rp[p].adr, ins[k].rp[p].tag.way);
    hide BankReqs, WayIndices;
    w := BankIsServed(c, tr, ins, k, b, p);
  }

  lemma WriterFindsBank(c: Config, tr: seq<State>, ins: seq<Inputs>, k: nat, p: nat) returns (w: nat)
    requires Run(c, tr, ins) && k < |ins| && p < c.n && Legal(c, tr[k], ins[k])
    requires ReqBank(tr[k].wp[p], ins[k].wp[p])
    ensures w <= 3 * c.n && RamPort(w, c.n) == RamPort(2 * c.n + p, c.n)
    ensures GrantsAt(c, tr, ins, k).banks[c.geo.Bank(ins[k].wp[p].adr)][w]
  {
    hide GrantsOf, Step, Initial, RamPort, Geometry.Bank, ReqBank, RReqBank;
    var b := c.geo.Bank(ins[k].wp[p].adr);
    assert BankReqs(c, tr[k], ins[k], b)[2 * c.n + p];
    hide BankReqs;
    w := BankIsServed(c, tr, ins, k, b, 2 * c.n + p);
  }

  lemma BusFindsBank(c: Config, tr: seq<State>, ins: seq<Inputs>, k: nat, b: nat) returns (w: nat)
    requires Run(c, tr, ins) && k < |ins| && b < c.geo.banks && Legal(c, tr[k], ins[k]) && BReqBank(tr[k].bus, b)
    ensures w <= 3 * c.n && RamPort(w, c.n) == RamPort(3 * c.n, c.n) && GrantsAt(c, tr, ins, k).banks[b][w]
  {
    hide GrantsOf, Step, Initial, RamPort, BReqBank, ReqBank, RReqBank, Geometry.Bank;
    assert BankReqs(c, tr[k], ins[k], b)[3 * c.n];
    hide BankReqs;
    w := BankIsServed(c, tr, ins, k, b, 3 * c.n);
  }

  // ---------- Tags ----------

  // Somebody asks to write a tag.
  predicate TagWriterAsks(c: Config, s: State)
    requires |s.wp| == c.n
  {
    BReqTagw(s.bus) || exists p | 0 <= p < c.n :: ReqTagw(s.wp[p])
  }

  // A port asks to read a tag, on line 'l' of the arbiter.
  predicate TagReaderAsks(c: Config, s: State, i: Inputs, l: nat)
    requires |s.wp| == |i.wp| == c.n && |s.rp| == |i.rp| == 2 * c.n && l <= 3 * c.n
  {
    if l < 2 * c.n then RReqTagr(s.rp[l], i.rp[l])
    else if l < 3 * c.n then ReqTagr(s.wp[l - 2 * c.n], i.wp[l - 2 * c.n])
    else BReqTagr(s.bus)
  }

  // The tag RAM port of a CPU that is asked for serves a reader, unless someone asks to write a tag; and if nobody
  // reads, someone who asks to write may write.
  lemma TagsAreServed(c: Config, tr: seq<State>, ins: seq<Inputs>, k: nat, l: nat) returns (w: nat)
    requires Run(c, tr, ins) && k < |ins| && l <= 3 * c.n && Legal(c, tr[k], ins[k]) && tr[k].tagReady
    requires TagReaderAsks(c, tr[k], ins[k], l) || TagWriterAsks(c, tr[k])
    ensures var g := GrantsAt(c, tr, ins, k);
      && (TagReaderAsks(c, tr[k], ins[k], l) && !TagWriterAsks(c, tr[k]) ==>
          w <= 3 * c.n && CpuOf(w, c.n) == CpuOf(l, c.n) && g.tagr[w])
      && (TagWriterAsks(c, tr[k]) && NoneSet(g.tagr) ==> w <= c.n && g.tagw[w])
  {
    hide GrantsOf, Step, Initial, TagReadGrants, TagWriteGrants, TagrReqs, TagwReqs, BusifReqs, BankReqs, LinelockReqs;
    hide WorkIndices, WayIndices, SameRequest, TagWriterAsks, TagReaderAsks, LineLockGrants, BusIfGrants, BankGrants;
    hide NoneSet, CpuOf;
    var s, i, g := tr[k], ins[k], GrantsAt(c, tr, ins, k);
    GrantsParts(c, s, i);
    w := 0;
    if TagWriterAsks(c, s) {
      var j := WriterLine(c, s, i);
      if NoneSet(g.tagr) {
        w := TagWritersWork(s.tagw, TagwReqs(c, s, i), g.tagr, c.n, i.prio, j);
      }
    } else {
      NoWriterLine(c, s, i);
      ReaderLine(c, s, i, l);
      w := TagReadersWork(s.tagr, TagrReqs(c, s, i), TagwReqs(c, s, i), c.n, l);
    }
  }

  lemma ReaderLine(c: Config, s: State, i: Inputs, l: nat)
    requires Legal(c, s, i) && l <= 3 * c.n
    ensures TagrReqs(c, s, i)[l] == TagReaderAsks(c, s, i, l)
  {
    hide ReqTagr, RReqTagr, BReqTagr, SameRequest;
  }

  lemma WriterLine(c: Config, s: State, i: Inputs) returns (j: nat)
    requires Legal(c, s, i) && TagWriterAsks(c, s)
    ensures j <= c.n && TagwReqs(c, s, i)[j]
  {
    hide ReqTagw, BReqTagw, SameRequest;
    if BReqTagw(s.bus) {
      j := c.n;
    } else {
      j :| 0 <= j < c.n && ReqTagw(s.wp[j]);
    }
  }

  lemma NoWriterLine(c: Config, s: State, i: Inputs)
    requires Legal(c, s, i) && !TagWriterAsks(c, s)
    ensures NoneSet(TagwReqs(c, s, i))
  {
    hide ReqTagw, BReqTagw, SameRequest;
  }

  // ---------- Bus interface and line lock ----------

  // A port asks for the bus interface, on line 'l' of the arbiter.
  predicate BusifAsked(c: Config, s: State, i: Inputs, l: nat)
    requires |s.wp| == |i.wp| == c.n && |s.rp| == |i.rp| == 2 * c.n && l < 3 * c.n
  {
    if l < 2 * c.n then RReqBusif(s.rp[l], i.rp[l]) else ReqBusif(s.wp[l - 2 * c.n], i.wp[l - 2 * c.n])
  }

  lemma BusifLine(c: Config, s: State, i: Inputs)
    requires Legal(c, s, i)
    ensures forall l | 0 <= l < 3 * c.n :: BusifReqs(c, s, i)[l] == BusifAsked(c, s, i, l)
  {
    hide ReqBusif, RReqBusif, SameRequest;
  }

  // The bus interface has an owner exactly if some port asks for it.
  lemma BusifIsServed(c: Config, tr: seq<State>, ins: seq<Inputs>, k: nat)
    requires Run(c, tr, ins) && k < |ins| && Legal(c, tr[k], ins[k])
    ensures (exists l :: 0 <= l < 3 * c.n && GrantsAt(c, tr, ins, k).busif[l]) <==>
      (exists l :: 0 <= l < 3 * c.n && BusifAsked(c, tr[k], ins[k], l))
  {
    hide GrantsOf, Step, Initial, TagReadGrants, TagWriteGrants, TagrReqs, TagwReqs, BusifReqs, BankReqs, LinelockReqs;
    hide WorkIndices, WayIndices, SameRequest, BusifAsked, LineLockGrants, BusIfGrants, BankGrants;
    GrantsParts(c, tr[k], ins[k]);
    BusifLine(c, tr[k], ins[k]);
    var req, g := BusifReqs(c, tr[k], ins[k]), GrantsAt(c, tr, ins, k).busif;
    BusIfWorks(tr[k].busif, req, c.n, ins[k].prio);
    assert NoneSet(g) <==> NoneSet(req);
    if l :| 0 <= l < 3 * c.n && g[l] {
      var m :| 0 <= m < |req| && req[m];
      assert BusifAsked(c, tr[k], ins[k], m);
    }
    if l :| 0 <= l < 3 * c.n && BusifAsked(c, tr[k], ins[k], l) {
      assert req[l];
      var m :| 0 <= m < |g| && g[m];
    }
  }

  // A write port that asks for the line lock while no write port has it works on the set that the bus interface has
  // locked.
  lemma LockIsServed(c: Config, tr: seq<State>, ins: seq<Inputs>, k: nat, p: nat)
    requires Run(c, tr, ins) && k < |ins| && p < c.n && Legal(c, tr[k], ins[k])
    requires ReqLinelock(tr[k].wp[p], ins[k].wp[p], WpGrants(c, ins[k], GrantsAt(c, tr, ins, k), p).bank)
    requires forall q | 0 <= q < c.n :: !GrantsAt(c, tr, ins, k).linelock[q]
    ensures GrantsAt(c, tr, ins, k).linelock[c.n] && BReqLinelock(tr[k].bus)
    ensures c.geo.Index(ins[k].wp[p].adr) == c.geo.Index(tr[k].bus.adr)
  {
    hide GrantsOf, Step, Initial, TagReadGrants, TagWriteGrants, TagrReqs, TagwReqs, BusifReqs, BankReqs, LinelockReqs;
    hide WorkIndices, WayIndices, SameRequest, LineLockGrants, BusIfGrants, BankGrants, ReqLinelock, BReqLinelock;
    hide Geometry.Index, Geometry.Bank;
    var s, i, g := tr[k], ins[k], GrantsAt(c, tr, ins, k);
    GrantsParts(c, s, i);
    LockLine(c, s, i, g, p);
    LineLockWorks(s.linelock, LinelockReqs(c, s, i, g.banks), WorkIndices(c, s, i), i.prio, p);
    BusLockAsked(s.linelock, LinelockReqs(c, s, i, g.banks), WorkIndices(c, s, i), i.prio);
  }

  lemma LockLine(c: Config, s: State, i: Inputs, g: Grants, p: nat)
    requires Legal(c, s, i) && GrantsSized(c, g) && p < c.n
    ensures var req := LinelockReqs(c, s, i, g.banks);
      req[p] == ReqLinelock(s.wp[p], i.wp[p], WpGrants(c, i, g, p).bank) && req[c.n] == BReqLinelock(s.bus)
    ensures var ix := WorkIndices(c, s, i); ix.wp[p] == c.geo.Index(i.wp[p].adr) && ix.bus == c.geo.Index(s.bus.adr)
  {
    hide ReqLinelock, BReqLinelock, Geometry.Index, Geometry.Bank, SameRequest;
  }

  lemma BusLockAsked(reg: Lines, req: Lines, ix: Indices, prio: nat)
    requires |reg| == |req| == |ix.wp| + 1 && prio < |ix.wp| && LineLockGrants(reg, req, ix, prio)[|ix.wp|]
    ensures req[|ix.wp|]
  {}
}
