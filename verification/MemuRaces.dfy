// A run of the memory unit in which a writeback or flush without the line lock loses an acknowledged write. CPU 0 reads
// a stream of words, and its write port waits for the tag RAM port while it holds the line lock. Meanwhile write port 1
// starts its special operation.

module MemuRaces {
  import opened Words
  import opened Address
  import opened ArbiterSpec
  import opened BankArbiter
  import opened WritePortSpec
  import opened ReadPortSpec
  import opened BusIfSpec
  import opened MemuSpec
  import opened MemuProofs
  import opened MemuSafety
  import opened MemuSpecial
  import opened MemuHistory
  import opened MemuRuns

  // All ports but data read port 0 and the write ports 0 and 1 are idle, and write port 1 does not have the line lock.
  ghost predicate Race(c: Config, s: State) {
    && c.Valid() && c.n >= 2 && Sized(c, s)
    && (forall p | 2 <= p < c.n :: s.wp[p].state == Init && !s.pending[p])
    && (forall p | 1 <= p < 2 * c.n :: s.rp[p] == RInit)
    && !BReqLinelock(s.bus) && !s.bus.pc.Fill? && !WordIsRead(s.bus) && !s.linelock[1]
  }

  // Banks are asked for by one of read port 0, write port 0 and the bus interface. The tag is written by the bus
  // interface only, and while nobody asks to read one.
  ghost predicate RaceIn(c: Config, s: State, i: Inputs) {
    && Race(c, s) && Legal(c, s, i) && i.prio == 0
    && (forall p | 2 <= p < c.n :: Quiet(i.wp[p]))
    && (forall p | 1 <= p < 2 * c.n :: !i.rp[p].rd)
    && Writer(s.wp[0], i.wp[0]) && Special(s.wp[1], i.wp[1]) && !RReqBusif(s.rp[0], i.rp[0])
    && (s.tagr[2 * c.n] ==> !ReqTagr(s.wp[0], i.wp[0]))
    && !(RReqBank(s.rp[0], i.rp[0]) && ReqBank(s.wp[0], i.wp[0]))
    && (s.bus.pc.VictimRead? ==> !RReqBank(s.rp[0], i.rp[0]) && !ReqBank(s.wp[0], i.wp[0]))
    && (BReqTagw(s.bus) ==> !RReqTagr(s.rp[0], i.rp[0]) && !ReqTagr(s.wp[0], i.wp[0]))
  }

  predicate Writer(r: WpRegs, i: WpIn) {
    !ReqTagw(r) && !ReqBusif(r, i)
  }

  predicate Special(r: WpRegs, i: WpIn) {
    !ReqTagr(r, i) && !ReqTagw(r) && !ReqBank(r, i)
  }

  // ---------- The grants of one cycle ----------

  lemma RaceQuiet(c: Config, s: State, i: Inputs, p: nat)
    requires RaceIn(c, s, i) && 2 <= p < c.n
    ensures !TagrReqs(c, s, i)[2 * c.n + p] && !TagwReqs(c, s, i)[p] && !BusifReqs(c, s, i)[2 * c.n + p]
    ensures forall b | 0 <= b < c.geo.banks :: !BankReqs(c, s, i, b)[2 * c.n + p]
  {
    QuietPort(s.wp[p], i.wp[p], false);
    hide ReqTagr, ReqTagw, ReqBank, ReqBusif, RReqTagr, RReqBank, RReqBusif, BReqTagr, BReqTagw, BReqBank;
    hide Geometry.Bank;
  }

  lemma RaceReaders(c: Config, s: State, i: Inputs, p: nat)
    requires RaceIn(c, s, i) && 1 <= p < 2 * c.n
    ensures !TagrReqs(c, s, i)[p] && !BusifReqs(c, s, i)[p]
    ensures forall b | 0 <= b < c.geo.banks :: !BankReqs(c, s, i, b)[p]
  {
    QuietReader(i.rp[p]);
    hide ReqTagr, ReqTagw, ReqBank, ReqBusif, RReqTagr, RReqBank, RReqBusif, BReqTagr, BReqTagw, BReqBank;
    hide Geometry.Bank;
  }

  // Who asks for tags: read port 0, write port 0 and the bus interface.
  lemma RaceTagRequests(c: Config, s: State, i: Inputs)
    requires RaceIn(c, s, i)
    ensures var r := TagrReqs(c, s, i);
      && r[0] == RReqTagr(s.rp[0], i.rp[0]) && r[2 * c.n] == ReqTagr(s.wp[0], i.wp[0]) && r[3 * c.n] == BReqTagr(s.bus)
      && forall j | 0 <= j < 3 * c.n && j != 0 && j != 2 * c.n :: !r[j]
    ensures TagwReqs(c, s, i)[c.n] == BReqTagw(s.bus) && OnlyLine(TagwReqs(c, s, i), c.n)
  {
    var r, w := TagrReqs(c, s, i), TagwReqs(c, s, i);
    assert !r[2 * c.n + 1] && !w[0] && !w[1] && r[0] == RReqTagr(s.rp[0], i.rp[0]);
    assert r[2 * c.n] == ReqTagr(s.wp[0], i.wp[0]) && r[3 * c.n] == BReqTagr(s.bus) && w[c.n] == BReqTagw(s.bus);
    hide TagrReqs, TagwReqs;
    forall j | 0 <= j < 3 * c.n && j != 0 && j != 2 * c.n
      ensures !r[j]
    {
      if j < 2 * c.n { RaceReaders(c, s, i, j); } else if j > 2 * c.n + 1 { RaceQuiet(c, s, i, j - 2 * c.n); }
    }
    forall j | 0 <= j < c.n
      ensures !w[j]
    {
      if j >= 2 { RaceQuiet(c, s, i, j); }
    }
  }

  // Read port 0 goes before write port 0, and the bus interface has the RAM port of another CPU.
  lemma RaceTagReaders(reg: Lines, req: Lines, reqW: Lines, n: nat)
    requires n >= 2 && |reg| == |req| == 3 * n + 1 && |reqW| == n + 1
    requires !(reg[2 * n] && req[2 * n]) && forall j | 0 <= j < 3 * n && j != 0 && j != 2 * n :: !req[j]
    requires req[0] || req[2 * n] || req[3 * n] ==> NoneSet(reqW)
    ensures var g := TagReadGrants(reg, req, reqW, n);
      && g[0] == req[0] && g[2 * n] == (req[2 * n] && !req[0]) && g[3 * n] == req[3 * n]
    ensures forall j | 0 <= j < 3 * n && j != 0 && j != 2 * n :: !TagReadGrants(reg, req, reqW, n)[j]
  {
    var kept, g := Kept(reg, req), TagReadGrants(reg, req, reqW, n);
    forall j | 0 <= j < 3 * n && j != 0 && j != 2 * n
      ensures !g[j]
    {
      NewReaderIsOfCpu(req, CpuOf(j, n), n);
    }
    assert CpuOf(0, n) == CpuOf(2 * n, n) == 0 && CpuOf(3 * n, n) == n - 1;
  }

  lemma RaceTags(c: Config, s: State, i: Inputs)
    requires RaceIn(c, s, i)
    ensures var g := GrantsOf(c, s, i);
      && g.tagr[0] == (s.tagReady && RReqTagr(s.rp[0], i.rp[0]))
      && g.tagr[2 * c.n] == (s.tagReady && ReqTagr(s.wp[0], i.wp[0]) && !RReqTagr(s.rp[0], i.rp[0]))
      && g.tagr[3 * c.n] == (s.tagReady && BReqTagr(s.bus)) && g.tagw[c.n] == (s.tagReady && BReqTagw(s.bus))
      && !g.tagw[0]
  {
    var g, r, w := GrantsOf(c, s, i), TagrReqs(c, s, i), TagwReqs(c, s, i);
    RaceTagRequests(c, s, i);
    assert BReqTagw(s.bus) ==> !r[0] && !r[2 * c.n] && !BReqTagr(s.bus);
    hide RaceIn, TagrReqs, TagwReqs, BusifReqs, BankReqs, LinelockReqs, WayIndices, WorkIndices, TagReadGrants;
    hide TagWriteGrants, BankGrants, LineLockGrants, BusIfGrants, RReqTagr, ReqTagr, BReqTagr, BReqTagw;
    if s.tagReady {
      RaceTagReaders(s.tagr, r, w, c.n);
      SoleTagWriter(s.tagw, w, g.tagr, c.n, i.prio, c.n);
    }
  }

  lemma RaceBusif(c: Config, s: State, i: Inputs)
    requires RaceIn(c, s, i)
    ensures var g := GrantsOf(c, s, i).busif;
      OnlyLine(g, 2 * c.n + 1) && g[2 * c.n + 1] == ReqBusif(s.wp[1], i.wp[1])
  {
    var r := BusifReqs(c, s, i);
    assert !r[0] && !r[2 * c.n] && r[2 * c.n + 1] == ReqBusif(s.wp[1], i.wp[1]);
    hide BusifReqs;
    forall j | 0 <= j < 3 * c.n && j != 2 * c.n + 1
      ensures !r[j]
    {
      if 1 <= j < 2 * c.n { RaceReaders(c, s, i, j); } else if j > 2 * c.n + 1 { RaceQuiet(c, s, i, j - 2 * c.n); }
    }
    SoleBusifUser(s.busif, r, c.n, i.prio, 2 * c.n + 1);
    hide RaceIn, TagrReqs, TagwReqs, BankReqs, LinelockReqs, WayIndices, WorkIndices, TagReadGrants, ReqBusif;
    hide TagWriteGrants, BankGrants, LineLockGrants, BusIfGrants;
  }

  // The one line that may ask for banks.
  function BankUser(c: Config, s: State, i: Inputs): (k: nat)
    requires c.n >= 2 && Legal(c, s, i)
    ensures k <= 3 * c.n
  {
    if RReqBank(s.rp[0], i.rp[0]) then 0 else if ReqBank(s.wp[0], i.wp[0]) then 2 * c.n else 3 * c.n
  }

  lemma RaceBank(c: Config, s: State, i: Inputs, b: nat)
    requires RaceIn(c, s, i) && b < c.geo.banks
    ensures GrantsOf(c, s, i).banks[b] == BankReqs(c, s, i, b)
  {
    var r, k := BankReqs(c, s, i, b), BankUser(c, s, i);
    if !s.bus.pc.VictimRead? {
      RaceBusBank(s.bus, b);
    }
    assert r[0] ==> RReqBank(s.rp[0], i.rp[0]);
    assert r[2 * c.n] ==> ReqBank(s.wp[0], i.wp[0]);
    assert !r[2 * c.n + 1] && r[3 * c.n] == BReqBank(s.bus, b);
    hide BankReqs, RReqBank, ReqBank, BReqBank;
    forall j | 0 <= j < 3 * c.n && j != 0 && j != 2 * c.n
      ensures !r[j]
    {
      if j < 2 * c.n { RaceReaders(c, s, i, j); } else if j > 2 * c.n + 1 { RaceQuiet(c, s, i, j - 2 * c.n); }
    }
    assert OnlyLine(r, k);
    hide RaceIn, TagrReqs, TagwReqs, BusifReqs, LinelockReqs, WayIndices, WorkIndices, TagReadGrants, BankUser;
    hide OnlyLine;
    hide TagWriteGrants, BankGrants, LineLockGrants, BusIfGrants;
    SoleBankUser(s.banks[b], r, WayIndices(c, s, i), c.n, i.prio, k);
  }

  lemma RaceBusBank(u: BusRegs, b: nat)
    requires !u.pc.VictimRead? && !u.pc.Fill?
    ensures !BReqBank(u, b)
  {}

  // With priority 0 write port 0 gets the line lock whenever it asks.
  lemma FirstOfPriority(reg: Lines, req: Lines, ix: Indices)
    requires |reg| == |req| == |ix.wp| + 1 && |ix.wp| >= 2 && !reg[1] && !req[|ix.wp|] && req[0]
    requires forall p | 2 <= p < |ix.wp| :: !req[p]
    ensures LineLockGrants(reg, req, ix, 0)[0] && !LineLockGrants(reg, req, ix, 0)[1]
    ensures !LineLockGrants(reg, req, ix, 0)[|ix.wp|]
  {
    var n, e := |ix.wp|, LineLockEligible(reg, req, ix);
    assert Rotated(0, 0, n) == 0 && e[0];
    assert First(e, 0, 0) == 0;
    assert !Kept(reg, req)[..n][1];
  }

  lemma RaceLock(c: Config, s: State, i: Inputs)
    requires RaceIn(c, s, i)
    requires ReqLinelock(s.wp[0], i.wp[0], GrantsOf(c, s, i).banks[c.geo.Bank(i.wp[0].adr)][2 * c.n])
    ensures var g := GrantsOf(c, s, i).linelock; g[0] && !g[1] && !g[c.n]
  {
    hide GrantsOf, LinelockReqs, ReqLinelock, BReqLinelock, LineLockGrants, WorkIndices, TagrReqs, TagwReqs, BusifReqs;
    hide BankReqs, WayIndices, SameRequest, Geometry.Bank, Special;
    var g := GrantsOf(c, s, i);
    var r := LinelockReqs(c, s, i, g.banks);
    LockRequest(c, s, i, g.banks, 0);
    BusLockRequest(c, s, i, g.banks);
    forall p | 2 <= p < c.n
      ensures !r[p]
    {
      LockRequest(c, s, i, g.banks, p);
      QuietPort(s.wp[p], i.wp[p], g.banks[c.geo.Bank(i.wp[p].adr)][2 * c.n + p]);
    }
    FirstOfPriority(s.linelock, r, WorkIndices(c, s, i));
    GrantsLock(c, s, i);
  }

  lemma BusLockRequest(c: Config, s: State, i: Inputs, banks: seq<Lines>)
    requires Legal(c, s, i) && BanksSized(c, banks)
    ensures LinelockReqs(c, s, i, banks)[c.n] == BReqLinelock(s.bus)
  {
    hide ReqLinelock, Geometry.Bank, BReqLinelock;
  }

  lemma GrantsLock(c: Config, s: State, i: Inputs)
    requires Legal(c, s, i)
    ensures var g := GrantsOf(c, s, i);
      g.linelock == LineLockGrants(s.linelock, LinelockReqs(c, s, i, g.banks), WorkIndices(c, s, i), i.prio)
  {
    hide TagrReqs, TagwReqs, BusifReqs, BankReqs, LinelockReqs, WayIndices, WorkIndices, TagReadGrants;
    hide TagWriteGrants, BankGrants, LineLockGrants, BusIfGrants;
  }

  // ---------- The next state ----------

  function RaceRpGnt(q: RpState, j: RpIn, ready: bool): RpGnt {
    RpGnt(ready && RReqTagr(q, j), RReqBank(q, j), false)
  }

  function RaceBusGnt(b: BusRegs, banks: nat, ready: bool): BusGnt {
    BusGnt(false, ready && BReqTagr(b), ready && BReqTagw(b), seq(banks, k => k >= 0 && BReqBank(b, k)))
  }

  // What read port 0, the write ports 0 and 1 and the bus interface see of the grants 'g' if write port 0 asks for the
  // line lock, the last two as far as it matters.
  ghost predicate RaceSeen(c: Config, s: State, i: Inputs, g: Grants)
    requires Legal(c, s, i) && GrantsSized(c, g) && c.n >= 2
  {
    && RpGrants(c, i, g, 0) == RaceRpGnt(s.rp[0], i.rp[0], s.tagReady)
    && WpGrants(c, i, g, 0).bank == ReqBank(s.wp[0], i.wp[0]) && !WpGrants(c, i, g, 0).tagw
    && WpGrants(c, i, g, 0).tagr == (s.tagReady && ReqTagr(s.wp[0], i.wp[0]) && !RReqTagr(s.rp[0], i.rp[0]))
    && WpGrants(c, i, g, 0).linelock == g.linelock[0]
    && (ReqLinelock(s.wp[0], i.wp[0], WpGrants(c, i, g, 0).bank) ==>
        g.linelock[0] && !g.linelock[1] && !g.linelock[c.n])
    && !WpGrants(c, i, g, 0).busif && WpGrants(c, i, g, 1).busif == ReqBusif(s.wp[1], i.wp[1])
    && BusGrants(c, g).(linelock := false) == RaceBusGnt(s.bus, c.geo.banks, s.tagReady)
    && Offered(c, s, i, g.busif) == SoloOffer(s.wp[1], i.wp[1], i.busAck, i.busTag)
  }

  lemma RaceBankLines(c: Config, s: State, i: Inputs, g: Grants)
    requires RaceIn(c, s, i) && GrantsSized(c, g)
      && forall b | 0 <= b < c.geo.banks :: g.banks[b] == BankReqs(c, s, i, b)
    ensures g.banks[c.geo.Bank(i.rp[0].adr)][0] == RReqBank(s.rp[0], i.rp[0])
    ensures g.banks[c.geo.Bank(i.wp[0].adr)][2 * c.n] == ReqBank(s.wp[0], i.wp[0])
    ensures forall b | 0 <= b < c.geo.banks :: g.banks[b][3 * c.n] == BReqBank(s.bus, b)
  {
    hide RReqBank, ReqBank, BReqBank, Geometry.Bank, Writer, Special;
    assert g.banks[c.geo.Bank(i.rp[0].adr)] == BankReqs(c, s, i, c.geo.Bank(i.rp[0].adr));
    assert g.banks[c.geo.Bank(i.wp[0].adr)] == BankReqs(c, s, i, c.geo.Bank(i.wp[0].adr));
  }

  lemma RaceOffered(c: Config, s: State, i: Inputs, busif: Lines)
    requires Legal(c, s, i) && c.n >= 2 && |busif| == 3 * c.n && OnlyLine(busif, 2 * c.n + 1)
    requires busif[2 * c.n + 1] == ReqBusif(s.wp[1], i.wp[1])
    ensures Offered(c, s, i, busif) == SoloOffer(s.wp[1], i.wp[1], i.busAck, i.busTag)
  {
    hide ReqBusif, BusifOp, RBusifOp, LastSet;
    OnlySet(busif, 2 * c.n + 1);
  }

  // The same line by line.
  ghost predicate RaceGranted(c: Config, s: State, i: Inputs, g: Grants)
    requires Legal(c, s, i) && GrantsSized(c, g) && c.n >= 2
  {
    && g.tagr[0] == (s.tagReady && RReqTagr(s.rp[0], i.rp[0]))
    && g.tagr[2 * c.n] == (s.tagReady && ReqTagr(s.wp[0], i.wp[0]) && !RReqTagr(s.rp[0], i.rp[0]))
    && g.tagr[3 * c.n] == (s.tagReady && BReqTagr(s.bus)) && g.tagw[c.n] == (s.tagReady && BReqTagw(s.bus))
      && !g.tagw[0]
    && OnlyLine(g.busif, 2 * c.n + 1) && g.busif[2 * c.n + 1] == ReqBusif(s.wp[1], i.wp[1])
    && g.banks[c.geo.Bank(i.rp[0].adr)][0] == RReqBank(s.rp[0], i.rp[0])
    && g.banks[c.geo.Bank(i.wp[0].adr)][2 * c.n] == ReqBank(s.wp[0], i.wp[0])
    && (forall b | 0 <= b < c.geo.banks :: g.banks[b][3 * c.n] == BReqBank(s.bus, b))
    && (ReqLinelock(s.wp[0], i.wp[0], ReqBank(s.wp[0], i.wp[0])) ==>
        g.linelock[0] && !g.linelock[1] && !g.linelock[c.n])
  }

  lemma RaceGrants(c: Config, s: State, i: Inputs)
    requires RaceIn(c, s, i)
    ensures RaceGranted(c, s, i, GrantsOf(c, s, i))
  {
    hide GrantsOf, Geometry.Bank, BankReqs, RReqBank, ReqBank, BReqBank, RReqTagr, ReqTagr, BReqTagr, BReqTagw;
    hide ReqLinelock;
    hide ReqBusif, OnlyLine;
    var g := GrantsOf(c, s, i);
    forall b | 0 <= b < c.geo.banks
      ensures g.banks[b] == BankReqs(c, s, i, b)
    {
      RaceBank(c, s, i, b);
    }
    RaceBankLines(c, s, i, g);
    RaceTags(c, s, i);
    RaceBusif(c, s, i);
    if ReqLinelock(s.wp[0], i.wp[0], ReqBank(s.wp[0], i.wp[0])) {
      RaceLock(c, s, i);
    }
  }

  lemma RaceSees(c: Config, s: State, i: Inputs, g: Grants)
    requires Legal(c, s, i) && GrantsSized(c, g) && c.n >= 2 && RaceGranted(c, s, i, g)
    ensures RaceSeen(c, s, i, g)
  {
    hide Geometry.Bank, RReqBank, ReqBank, BReqBank, RReqTagr, ReqTagr, BReqTagr, BReqTagw, ReqLinelock, WayIndices;
    hide ReqBusif, Offered, SoloOffer, SameRequest;
    RaceOffered(c, s, i, g.busif);
    assert BusGrants(c, g).bank == RaceBusGnt(s.bus, c.geo.banks, s.tagReady).bank;
  }

  ghost predicate RaceNext(c: Config, s: State, i: Inputs, g: Grants, t: State)
    requires Legal(c, s, i) && GrantsSized(c, g) && c.n >= 2
  {
    && Sized(c, t) && t.tagReady && t.lastIn == i.wp && t.linelock == g.linelock && t.tagr == g.tagr
    && t.rp[0] == RNextState(s.rp[0], i.rp[0], RaceRpGnt(s.rp[0], i.rp[0], s.tagReady))
    && t.wp[0].state == NextState(s.wp[0], i.wp[0], WpGrants(c, i, g, 0))
    && (s.wp[0].state.ReadTag? ==> t.wp[0].tag == i.wp[0].tag)
    && t.wp[1].state == NextState(s.wp[1], i.wp[1], WpGrants(c, i, g, 1))
    && t.bus == BusNext(s.bus, c.geo, SoloOffer(s.wp[1], i.wp[1], i.busAck, i.busTag), BusGrants(c, g))
    && t.pending[0] == (HasRequest(i.wp[0]) && !Ack(s.wp[0], i.wp[0], WpGrants(c, i, g, 0)))
    && t.pending[1] == (HasRequest(i.wp[1]) && !Ack(s.wp[1], i.wp[1], WpGrants(c, i, g, 1)))
    && (forall p | 2 <= p < c.n :: t.wp[p].state == Init && !t.pending[p])
    && (forall p | 1 <= p < 2 * c.n :: t.rp[p] == RInit)
  }

  lemma RaceStep(c: Config, s: State, i: Inputs)
    requires RaceIn(c, s, i)
    ensures var g := GrantsOf(c, s, i); RaceSeen(c, s, i, g) && RaceNext(c, s, i, g, Step(c, s, i))
  {
    var g := GrantsOf(c, s, i);
    RaceGrants(c, s, i);
    hide RaceGranted, RaceSeen, RaceNext, GrantsOf, Advance;
    RaceSees(c, s, i, g);
    AdvanceAdvances(c, s, i, g);
    RaceAdvances(c, s, i, g, Step(c, s, i));
  }

  lemma NextRegsParts(r: WpRegs, i: WpIn, g: WpGnt, stb: bool, adr: Adr)
    ensures var n := NextRegs(r, i, g, stb, adr);
      n.state == NextState(r, i, g) && (r.state.ReadTag? ==> n.tag == i.tag)
  {}

  lemma RaceAdvances(c: Config, s: State, i: Inputs, g: Grants, t: State)
    requires RaceIn(c, s, i) && GrantsSized(c, g) && RaceSeen(c, s, i, g) && Advances(c, s, i, g, t)
    ensures RaceNext(c, s, i, g, t)
  {
    hide NextState, BusNext, ReqLinelock, ReqBank, SoloOffer, Offered, LockOwner, Ack, Links, RNextState, BusGrants;
    hide WayIndices, RpGrants, WpGrants, NextRegs, RReqTagr, RReqBank, ReqTagr, ReqBusif, BReqTagr, BReqTagw, BReqBank;
    hide Writer, Special;
    var w := LockOwner(c, g.linelock);
    forall p | 0 <= p < c.n
      ensures t.wp[p].state == NextState(s.wp[p], i.wp[p], WpGrants(c, i, g, p))
      ensures s.wp[p].state.ReadTag? ==> t.wp[p].tag == i.wp[p].tag
    {
      assert t.wp[p] == NextWp(c, s, i, g, p);
      NextRegsParts(s.wp[p], i.wp[p], WpGrants(c, i, g, p), w >= 0 && w != p, if w >= 0 then i.wp[w].adr else 0);
    }
    forall p | 2 <= p < c.n
      ensures t.wp[p].state == Init && !t.pending[p]
    {
      QuietStep(s.wp[p], i.wp[p], WpGrants(c, i, g, p));
    }
    forall p | 1 <= p < 2 * c.n
      ensures t.rp[p] == RInit
    {
      QuietReads(i.rp[p], RpGrants(c, i, g, p));
    }
  }

  lemma RaceNoLock(c: Config, s: State, i: Inputs)
    requires Legal(c, s, i) && c.n >= 2 && s.wp[1].state == Init && Quiet(i.wp[1])
    ensures !GrantsOf(c, s, i).linelock[1]
  {
    hide LinelockReqs, ReqLinelock, GrantsOf, WorkIndices, SameRequest, Quiet, Geometry.Bank, BusLineLock;
    var g := GrantsOf(c, s, i);
    var r := LinelockReqs(c, s, i, g.banks);
    LockRequest(c, s, i, g.banks, 1);
    QuietPort(s.wp[1], i.wp[1], g.banks[c.geo.Bank(i.wp[1].adr)][2 * c.n + 1]);
    GrantsLock(c, s, i);
    assert !Kept(s.linelock, r)[..c.n][1];
  }

  // ---------- The course of the run ----------

  function SpecialOf(a: Adr, flush: bool, busy: bool): WpIn {
    WritebackOf(a, busy).(invalidate := flush)
  }

  // The line is valid and dirty.
  function DirtyTag(geo: Geometry, a: Adr): CacheTag
    requires geo.Valid()
  {
    CacheTag(true, true, geo.Tag(a), 0)
  }

  function ReaderAt(x: nat): RpState {
    if x == 2 || x == 4 || x == 6 then RReadTag else if x == 3 || x == 5 || x == 7 then RReadBank else RInit
  }

  function WriterAt(x: nat): WpState {
    if x == 9 then ReadTag else if x == 10 then WriteBank else Init
  }

  function SpecialAt(x: nat): WpState {
    if x <= 2 then Init else if x <= 4 then WpState.Special else SpecialWaitComplete
  }

  function PcAt(geo: Geometry, x: nat): Pc {
    if x <= 4 then Idle else if x == 5 then TagWait else if x == 6 then TagRead else if x == 7 then TagHave
    else if x == 8 then VictimRead(AllBanks(geo), AllBanks(geo))
    else if x == 9 then VictimRead(AllBanks(geo), AllOff(geo.banks)) else if x == 10 then NewWait else New1
  }

  function BusifAt(geo: Geometry, a: Adr, flush: bool, x: nat): BusRegs
    requires geo.Valid()
  {
    if x <= 3 then RESET
    else BusRegs(PcAt(geo, x), if flush then Flush else Writeback, true, a, true,
      if x <= 6 then NO_TAG else DirtyTag(geo, a), x >= 8)
  }

  function ReadInAt(geo: Geometry, a: Adr, x: nat, busy: bool): RpIn
    requires geo.Valid()
  {
    RpIn(1 <= x <= 6, false, a, false, DirtyTag(geo, a), ZERO_WORD, ZERO_WORD, busy)
  }

  function WriteInAt(geo: Geometry, a: Adr, x: nat, busy: bool): WpIn
    requires geo.Valid()
  {
    if 2 <= x then WriteOf(a, DirtyTag(geo, a)).(busy := busy) else NO_REQUEST.(busy := busy)
  }

  function SpecialInAt(a: Adr, flush: bool, x: nat, busy: bool): WpIn {
    if 2 <= x then SpecialOf(a, flush, busy) else NO_REQUEST.(busy := busy)
  }

  // The parts go on as planned, given the grants that they see.
  lemma ReaderGoesOn(geo: Geometry, a: Adr, x: nat, busy: bool)
    requires geo.Valid() && x <= 10
    ensures var q, j := ReaderAt(x), ReadInAt(geo, a, x, busy);
      && RNextState(q, j, RaceRpGnt(q, j, x > 0)) == ReaderAt(x + 1) && !RReqBusif(q, j)
      && RReqBank(q, j) == (x == 2 || x == 4 || x == 6) && RReqTagr(q, j) == (1 <= x <= 7)
  {}

  lemma WriterGoesOn(geo: Geometry, r: WpRegs, a: Adr, x: nat, busy: bool, g: WpGnt)
    requires geo.Valid() && x <= 10 && r.state == WriterAt(x)
    requires var i := WriteInAt(geo, a, x, busy);
      g.bank == ReqBank(r, i) && g.tagr == (x >= 8 && ReqTagr(r, i)) && (ReqLinelock(r, i, g.bank) ==> g.linelock)
    ensures var i := WriteInAt(geo, a, x, busy);
      && NextState(r, i, g) == WriterAt(x + 1) && Writer(r, i) && ReqBank(r, i) == (x == 10)
      && ReqTagr(r, i) == (2 <= x <= 8) && ReqLinelock(r, i, g.bank) == (2 <= x <= 9) && (x == 10 ==> Ack(r, i, g))
  {}

  lemma SpecialGoesOn(geo: Geometry, r: WpRegs, a: Adr, flush: bool, x: nat, g: WpGnt)
    requires geo.Valid() && x <= 10 && r.state == SpecialAt(x)
    requires var i := SpecialInAt(a, flush, x, BusifAt(geo, a, flush, x).busy); g.busif == ReqBusif(r, i)
    ensures var i := SpecialInAt(a, flush, x, BusifAt(geo, a, flush, x).busy);
      && NextState(r, i, g) == SpecialAt(x + 1) && Special(r, i)
      && SoloOffer(r, i, false, DirtyTag(geo, a)) == SpecialOffer(geo, a, flush, x)
  {}

  // What write port 1 offers to the bus interface.
  function SpecialOffer(geo: Geometry, a: Adr, flush: bool, x: nat): BusIn
    requires geo.Valid()
  {
    BusIn(if x == 3 || x == 4 then (if flush then Flush else Writeback) else Nothing, 2 <= x,
      if 2 <= x then a else 0, false, DirtyTag(geo, a))
  }

  lemma BusifGoesOn(geo: Geometry, a: Adr, flush: bool, x: nat, h: BusGnt)
    requires geo.Valid() && x <= 10
    requires h.(linelock := false) == RaceBusGnt(BusifAt(geo, a, flush, x), geo.banks, x > 0)
    ensures |h.bank| == geo.banks && BusSized(BusifAt(geo, a, flush, x), geo)
    ensures BusNext(BusifAt(geo, a, flush, x), geo, SpecialOffer(geo, a, flush, x), h) == BusifAt(geo, a, flush, x + 1)
  {
    if x == 8 {
      var all := AllBanks(geo);
      assert all[0] && !NoneSet(all);
      assert Without(all, h.bank) == AllOff(geo.banks);
    }
  }

  // State 'x' of the run, and the inputs of cycle 'x'.
  ghost predicate StateAt(c: Config, s: State, a: Adr, flush: bool, x: nat) {
    && Race(c, s) && s.tagReady == (x > 0) && (s.tagr[2 * c.n] ==> x == 9)
    && s.rp[0] == ReaderAt(x) && s.wp[0].state == WriterAt(x) && s.wp[1].state == SpecialAt(x)
    && s.bus == BusifAt(c.geo, a, flush, x) && (x == 10 ==> s.wp[0].tag == DirtyTag(c.geo, a))
    && (s.pending[0] ==> x > 2 && SameRequest(WriteInAt(c.geo, a, x, false), s.lastIn[0]))
    && (s.pending[1] ==> x > 2 && SameRequest(SpecialInAt(a, flush, x, false), s.lastIn[1]))
  }

  function InputsAt(c: Config, a: Adr, flush: bool, x: nat): (i: Inputs)
    requires c.Valid()
    ensures |i.wp| == c.n && |i.rp| == 2 * c.n
  {
    var busy := BusifAt(c.geo, a, flush, x).busy;
    Inputs(0,
      seq(c.n, k requires 0 <= k < c.n =>
        if k == 0 then WriteInAt(c.geo, a, x, busy) else if k == 1 then SpecialInAt(a, flush, x, busy)
        else NO_REQUEST.(busy := busy)),
      seq(2 * c.n, k requires 0 <= k < 2 * c.n =>
        if k == 0 then ReadInAt(c.geo, a, x, busy)
          else RpIn(false, false, 0, false, NO_TAG, ZERO_WORD, ZERO_WORD, busy)),
      false, DirtyTag(c.geo, a))
  }

  lemma StateLegal(c: Config, s: State, a: Adr, flush: bool, x: nat)
    requires StateAt(c, s, a, flush, x) && x <= 10
    ensures Legal(c, s, InputsAt(c, a, flush, x))
  {
    hide ReaderAt, WriterAt, SpecialAt, PcAt, BusifAt, WriteInAt, SpecialInAt, ReadInAt, SameRequest, BReqLinelock;
    SameRequests(c.geo, a, flush, x, s.bus.busy, s.lastIn[0], s.lastIn[1]);
  }

  lemma StateIn(c: Config, s: State, a: Adr, flush: bool, x: nat)
    requires StateAt(c, s, a, flush, x) && x <= 10
    ensures RaceIn(c, s, InputsAt(c, a, flush, x))
  {
    StateLegal(c, s, a, flush, x);
    ReaderGoesOn(c.geo, a, x, s.bus.busy);
    WriterIn(c.geo, s.wp[0], a, x, s.bus.busy);
    SpecialIn(c.geo, s.wp[1], a, flush, x);
    BusifIn(c.geo, a, flush, x);
    hide ReaderAt, WriterAt, SpecialAt, PcAt, BusifAt, WriteInAt, SpecialInAt, ReadInAt, RReqTagr, RReqBank, ReqTagr;
    hide ReqBank;
    hide Writer, Special, RReqBusif, BReqTagw, SameRequest, BReqLinelock, Legal, RNextState;
  }

  lemma SameRequests(geo: Geometry, a: Adr, flush: bool, x: nat, busy: bool, v: WpIn, w: WpIn)
    requires geo.Valid()
    ensures SameRequest(WriteInAt(geo, a, x, false), v) ==> SameRequest(WriteInAt(geo, a, x, busy), v)
    ensures SameRequest(SpecialInAt(a, flush, x, false), w) ==> SameRequest(SpecialInAt(a, flush, x, busy), w)
    ensures WriteInAt(geo, a, x, busy).busy == SpecialInAt(a, flush, x, busy).busy == busy
    ensures ReadInAt(geo, a, x, busy).busy == busy && !ReadInAt(geo, a, x, busy).busifHit
  {}

  lemma WriterIn(geo: Geometry, r: WpRegs, a: Adr, x: nat, busy: bool)
    requires geo.Valid() && x <= 10 && r.state == WriterAt(x)
    ensures var i := WriteInAt(geo, a, x, busy);
      Writer(r, i) && ReqBank(r, i) == (x == 10) && ReqTagr(r, i) == (2 <= x <= 8)
  {}

  lemma SpecialIn(geo: Geometry, r: WpRegs, a: Adr, flush: bool, x: nat)
    requires geo.Valid() && x <= 10 && r.state == SpecialAt(x)
    ensures Special(r, SpecialInAt(a, flush, x, BusifAt(geo, a, flush, x).busy))
  {}

  lemma BusifIn(geo: Geometry, a: Adr, flush: bool, x: nat)
    requires geo.Valid() && x <= 10
    ensures var b := BusifAt(geo, a, flush, x); (b.pc.VictimRead? <==> x == 8 || x == 9) && (BReqTagw(b) <==> x == 10)
  {}

  // The inputs of the parts.
  lemma PartsOf(c: Config, a: Adr, flush: bool, x: nat)
    requires c.Valid() && c.n >= 2
    ensures var i, busy := InputsAt(c, a, flush, x), BusifAt(c.geo, a, flush, x).busy;
      && i.wp[0] == WriteInAt(c.geo, a, x, busy) && i.wp[1] == SpecialInAt(a, flush, x, busy)
      && i.rp[0] == ReadInAt(c.geo, a, x, busy) && i.busAck == false && i.busTag == DirtyTag(c.geo, a) && i.prio == 0
  {}

  lemma LockStays(c: Config, s: State, a: Adr, flush: bool, x: nat)
    requires StateAt(c, s, a, flush, x) && x <= 9
    ensures Legal(c, s, InputsAt(c, a, flush, x)) && !GrantsOf(c, s, InputsAt(c, a, flush, x)).linelock[1]
  {
    hide GrantsOf, RaceNext, Step, WpGrants, RpGrants, BusGrants, Offered, RaceIn, Legal, InputsAt, SameRequest;
    hide BusifAt;
    hide WriterAt, SpecialInAt, WriteInAt, ReqLinelock, WayIndices, BReqLinelock, RaceRpGnt, RaceBusGnt, SoloOffer;
    var i := InputsAt(c, a, flush, x);
    StateLegal(c, s, a, flush, x);
    PartsOf(c, a, flush, x);
    if x < 2 {
      SpecialQuiet(a, flush, x, s.bus.busy);
      RaceNoLock(c, s, i);
    } else {
      StateIn(c, s, a, flush, x);
      RaceStep(c, s, i);
      WriterLocks(c.geo, s.wp[0], a, x, s.bus.busy, WpGrants(c, i, GrantsOf(c, s, i), 0).bank);
    }
  }

  lemma SpecialQuiet(a: Adr, flush: bool, x: nat, busy: bool)
    requires x < 2
    ensures Quiet(SpecialInAt(a, flush, x, busy))
  {}

  lemma WriterLocks(geo: Geometry, r: WpRegs, a: Adr, x: nat, busy: bool, gntBank: bool)
    requires geo.Valid() && 2 <= x <= 9 && r.state == WriterAt(x)
    ensures ReqLinelock(r, WriteInAt(geo, a, x, busy), gntBank)
  {}

  // Cycle 'x' of the run: what is seen of the grants, and the state it leads to as far as cycle 10 matters.
  ghost predicate GoesOn(c: Config, t: State, a: Adr, flush: bool, x: nat) {
    && c.Valid() && c.n >= 2 && Sized(c, t)
    && t.rp[0] == ReaderAt(x) && t.wp[0].state == WriterAt(x) && t.wp[1].state == SpecialAt(x)
    && t.bus == BusifAt(c.geo, a, flush, x) && t.tagReady
    && (x == 10 ==> t.wp[0].tag == DirtyTag(c.geo, a))
    && (forall p | 2 <= p < c.n :: t.wp[p].state == Init && !t.pending[p])
    && (forall p | 1 <= p < 2 * c.n :: t.rp[p] == RInit)
  }

  lemma CyclePorts(c: Config, s: State, a: Adr, flush: bool, x: nat)
    requires StateAt(c, s, a, flush, x) && x <= 10
    ensures var i := InputsAt(c, a, flush, x);
      Legal(c, s, i) && RaceSeen(c, s, i, GrantsOf(c, s, i)) && GoesOn(c, Step(c, s, i), a, flush, x + 1)
  {
    hide GrantsOf, Step, RaceIn, Legal, InputsAt, SameRequest, BusifAt, RaceRpGnt, RaceBusGnt, NextState, RNextState;
    hide BusNext;
    hide WriterAt, SpecialAt, ReaderAt, SpecialInAt, WriteInAt, ReadInAt, ReqLinelock, WayIndices, BReqLinelock;
    hide SoloOffer;
    hide RReqTagr, RReqBank, ReqTagr, ReqBank, ReqBusif, Ack, HasRequest, DirtyTag, WpGrants, RpGrants, BusGrants;
    hide Offered;
    var i := InputsAt(c, a, flush, x);
    StateLegal(c, s, a, flush, x);
    StateIn(c, s, a, flush, x);
    PartsOf(c, a, flush, x);
    RaceStep(c, s, i);
    var g := GrantsOf(c, s, i);
    ReaderGoesOn(c.geo, a, x, s.bus.busy);
    WriterIn(c.geo, s.wp[0], a, x, s.bus.busy);
    WriterGoesOn(c.geo, s.wp[0], a, x, s.bus.busy, WpGrants(c, i, g, 0));
    SpecialGoesOn(c.geo, s.wp[1], a, flush, x, WpGrants(c, i, g, 1));
    BusifGoesOn(c.geo, a, flush, x, BusGrants(c, g));
    TagTaken(c.geo, a, x, s.bus.busy);
  }

  lemma TagTaken(geo: Geometry, a: Adr, x: nat, busy: bool)
    requires geo.Valid()
    ensures x == 9 ==> WriterAt(x).ReadTag? && WriteInAt(geo, a, x, busy).tag == DirtyTag(geo, a)
  {}

  // The rest of the state, as long as the run goes on.
  ghost predicate StillRacing(c: Config, t: State, a: Adr, flush: bool, x: nat) {
    && c.Valid() && c.n >= 2 && Sized(c, t)
    && (t.pending[0] ==> x > 2 && SameRequest(WriteInAt(c.geo, a, x, false), t.lastIn[0]))
    && (t.pending[1] ==> x > 2 && SameRequest(SpecialInAt(a, flush, x, false), t.lastIn[1]))
    && !t.linelock[1] && (t.tagr[2 * c.n] ==> x == 9)
  }

  lemma CyclePending(c: Config, s: State, a: Adr, flush: bool, x: nat)
    requires StateAt(c, s, a, flush, x) && x <= 9
    ensures Legal(c, s, InputsAt(c, a, flush, x))
    ensures StillRacing(c, Step(c, s, InputsAt(c, a, flush, x)), a, flush, x + 1)
  {
    hide GrantsOf, Step, RaceIn, Legal, InputsAt, BusifAt, RaceRpGnt, RaceBusGnt, NextState, RNextState, BusNext;
    hide SameRequest;
    hide WriterAt, SpecialAt, ReaderAt, SpecialInAt, WriteInAt, ReadInAt, ReqLinelock, WayIndices, BReqLinelock;
    hide SoloOffer;
    hide RReqTagr, RReqBank, ReqTagr, ReqBank, ReqBusif, Ack, DirtyTag, RpGrants, BusGrants, Offered, HasRequest;
    var i := InputsAt(c, a, flush, x);
    StateLegal(c, s, a, flush, x);
    StateIn(c, s, a, flush, x);
    PartsOf(c, a, flush, x);
    RaceStep(c, s, i);
    LockStays(c, s, a, flush, x);
    ReaderGoesOn(c.geo, a, x, s.bus.busy);
    WriterIn(c.geo, s.wp[0], a, x, s.bus.busy);
    RequestsGoOn(c.geo, a, flush, x, s.bus.busy);
  }

  lemma RequestsGoOn(geo: Geometry, a: Adr, flush: bool, x: nat, busy: bool)
    requires geo.Valid()
    ensures HasRequest(WriteInAt(geo, a, x, busy)) ==>
      x >= 2 && SameRequest(WriteInAt(geo, a, x + 1, false), WriteInAt(geo, a, x, busy))
    ensures HasRequest(SpecialInAt(a, flush, x, busy)) ==>
      x >= 2 && SameRequest(SpecialInAt(a, flush, x + 1, false), SpecialInAt(a, flush, x, busy))
  {}

  lemma JoinAt(c: Config, t: State, a: Adr, flush: bool, x: nat)
    requires GoesOn(c, t, a, flush, x) && StillRacing(c, t, a, flush, x) && x > 0
    ensures StateAt(c, t, a, flush, x)
  {
    hide SameRequest, WriterAt, SpecialAt, ReaderAt, SpecialInAt, WriteInAt, DirtyTag, BReqLinelock, BusifAt;
    BusifUnlocked(c.geo, a, flush, x);
  }

  lemma CycleAt(c: Config, s: State, a: Adr, flush: bool, x: nat)
    requires StateAt(c, s, a, flush, x) && x <= 9
    ensures Legal(c, s, InputsAt(c, a, flush, x)) && StateAt(c, Step(c, s, InputsAt(c, a, flush, x)), a, flush, x + 1)
  {
    hide Step, RaceSeen, SameRequest, InputsAt, StateAt, GoesOn, StillRacing, GrantsOf;
    CyclePorts(c, s, a, flush, x);
    CyclePending(c, s, a, flush, x);
    JoinAt(c, Step(c, s, InputsAt(c, a, flush, x)), a, flush, x + 1);
  }

  lemma BusifUnlocked(geo: Geometry, a: Adr, flush: bool, x: nat)
    requires geo.Valid()
    ensures var b := BusifAt(geo, a, flush, x); !BReqLinelock(b) && !b.pc.Fill? && !WordIsRead(b)
  {}

  lemma RaceStarts(c: Config, a: Adr, flush: bool) returns (s: State)
    requires c.Valid() && c.n >= 2
    ensures Initial(c, s) && StateAt(c, s, a, flush, 0)
  {
    s := RunStarts(c);
  }

  // The whole course.
  lemma RaceRuns(c: Config, a: Adr, flush: bool) returns (tr: seq<State>, ins: seq<Inputs>)
    requires c.Valid() && c.n >= 2
    ensures |ins| == 11 && Run(c, tr, ins) && forall x | 0 <= x < 11 :: ins[x] == InputsAt(c, a, flush, x)
    ensures forall x | 0 <= x < 11 :: StateAt(c, tr[x], a, flush, x)
    ensures GoesOn(c, tr[11], a, flush, 11)
  {
    hide Legal, Step, Initial, StateAt, InputsAt, GoesOn, RaceSeen, GrantsOf;
    var s := RaceStarts(c, a, flush);
    tr, ins := [s], [];
    while |ins| < 10
      invariant |ins| <= 10 && Run(c, tr, ins)
      invariant forall x | 0 <= x < |ins| :: ins[x] == InputsAt(c, a, flush, x)
      invariant forall x | 0 <= x <= |ins| :: StateAt(c, tr[x], a, flush, x)
      decreases 10 - |ins|
    {
      CycleAt(c, tr[|ins|], a, flush, |ins|);
      var i := InputsAt(c, a, flush, |ins|);
      tr, ins := tr + [Step(c, tr[|ins|], i)], ins + [i];
    }
    CyclePorts(c, tr[10], a, flush, 10);
    var i := InputsAt(c, a, flush, 10);
    tr, ins := tr + [Step(c, tr[10], i)], ins + [i];
  }

  lemma VictimGranted(c: Config, s: State, a: Adr, flush: bool)
    requires StateAt(c, s, a, flush, 8) && Legal(c, s, InputsAt(c, a, flush, 8))
    ensures LineIsRead(c, s, InputsAt(c, a, flush, 8))
  {
    hide GrantsOf, Step, RaceIn, Legal, InputsAt, SameRequest, GoesOn, Offered, SoloOffer, WpGrants, RpGrants;
    hide ReqLinelock;
    var g := GrantsOf(c, s, InputsAt(c, a, flush, 8));
    CyclePorts(c, s, a, flush, 8);
    forall b | 0 <= b < c.geo.banks
      ensures g.banks[b][3 * c.n]
    {
      assert BReqBank(s.bus, b);
      assert BusGrants(c, g).bank[b] == RaceBusGnt(s.bus, c.geo.banks, s.tagReady).bank[b];
    }
  }

  lemma LockToWriter(c: Config, s: State, a: Adr, flush: bool, x: nat)
    requires StateAt(c, s, a, flush, x) && Legal(c, s, InputsAt(c, a, flush, x)) && 2 <= x <= 9
    ensures var g := GrantsOf(c, s, InputsAt(c, a, flush, x)); g.linelock[0] && !g.linelock[1] && !g.linelock[c.n]
  {
    hide GrantsOf, Step, RaceIn, InputsAt, SameRequest, GoesOn, Offered, SoloOffer, WpGrants, RpGrants, ReqLinelock;
    hide BusifAt, WriterAt, WriteInAt, SpecialInAt, Legal, RaceBusGnt, BusGrants, RaceRpGnt, ReqBank, ReqTagr, RReqTagr;
    var i := InputsAt(c, a, flush, x);
    CyclePorts(c, s, a, flush, x);
    PartsOf(c, a, flush, x);
    WriterLocks(c.geo, s.wp[0], a, x, s.bus.busy, WpGrants(c, i, GrantsOf(c, s, i), 0).bank);
  }

  lemma WriteGranted(c: Config, s: State, a: Adr, flush: bool)
    requires StateAt(c, s, a, flush, 10) && Legal(c, s, InputsAt(c, a, flush, 10))
    ensures WriteIsAcked(c, s, InputsAt(c, a, flush, 10), a)
  {
    hide GrantsOf, Step, RaceIn, InputsAt, SameRequest, GoesOn, Offered, SoloOffer, WpGrants, RpGrants, Legal;
    hide BusGrants;
    CyclePorts(c, s, a, flush, 10);
    PartsOf(c, a, flush, 10);
  }

  // The bus interface works in a special operation for write port 1 while write port 0 is granted the line lock.
  ghost predicate UnlockedFor1(c: Config, s: State, i: Inputs) {
    && Legal(c, s, i) && c.n >= 2 && Working(s.bus)
    && var g := GrantsOf(c, s, i); g.linelock[0] && WorksUnlocked(c, s, g, 1) && !WorksLocked(c, s, g)
  }

  // All words of the line are read from the banks.
  ghost predicate LineIsRead(c: Config, s: State, i: Inputs) {
    && Legal(c, s, i) && s.bus.pc.VictimRead?
    && forall b | 0 <= b < c.geo.banks :: GrantsOf(c, s, i).banks[b][3 * c.n]
  }

  // Write port 0 writes the word at 'a' to its bank, in the way that the bus interface works on, and is acknowledged.
  ghost predicate WriteIsAcked(c: Config, s: State, i: Inputs, a: Adr) {
    && Legal(c, s, i) && c.n >= 2 && i.wp[0].adr == a && TagOut(s.wp[0], i.wp[0]).way == s.bus.tag.way
    && var g := WpGrants(c, i, GrantsOf(c, s, i), 0);
      Occurs(BankWritten, s.wp[0], i.wp[0], g) && Ack(s.wp[0], i.wp[0], g)
  }

  lemma OnlyServed(c: Config, s: State, i: Inputs, p: nat)
    requires Race(c, s) && p < c.n && Serves(c, s, p) && s.bus.op != ReplaceLine && !IsSpecial(s.wp[0].state)
    ensures p == 1
  {
    hide Sized, Geometry.Index, Geometry.Tag, BReqLinelock;
  }

  lemma UnlockedFor(c: Config, s: State, i: Inputs)
    requires Race(c, s) && Legal(c, s, i) && ServesOk(c, s) && !IsSpecial(s.wp[0].state)
    requires var b := s.bus; Working(b) && b.busy && b.noLinelock && CacheOp(b.op) && b.op != ReplaceLine
    requires var g := GrantsOf(c, s, i).linelock; g[0] && !g[1]
    ensures UnlockedFor1(c, s, i)
  {
    hide GrantsOf, Working, CacheOp, Serves, IsSpecial, Sized, SameRequest;
    var p :| 0 <= p < c.n && Serves(c, s, p);
    forall q | 0 <= q < c.n && Serves(c, s, q)
      ensures q == 1
    {
      OnlyServed(c, s, i, q);
    }
    hide Race, Legal;
  }

  lemma UnlockedAt(c: Config, s: State, a: Adr, flush: bool, x: nat)
    requires StateAt(c, s, a, flush, x) && ServesOk(c, s) && 5 <= x <= 9 && Legal(c, s, InputsAt(c, a, flush, x))
    ensures UnlockedFor1(c, s, InputsAt(c, a, flush, x))
  {
    hide GrantsOf, InputsAt, SameRequest, BusifAt, WriterAt, Legal, Working, CacheOp, IsSpecial, UnlockedFor1, ServesOk;
    UnlockedBus(c.geo, a, flush, x);
    LockToWriter(c, s, a, flush, x);
    WriterNotSpecial(x);
    UnlockedFor(c, s, InputsAt(c, a, flush, x));
  }

  lemma WriterNotSpecial(x: nat)
    ensures !IsSpecial(WriterAt(x))
  {}

  lemma UnlockedBus(geo: Geometry, a: Adr, flush: bool, x: nat)
    requires geo.Valid() && 5 <= x <= 11
    ensures var b := BusifAt(geo, a, flush, x);
      Working(b) && b.busy && b.noLinelock && CacheOp(b.op) && b.op != ReplaceLine
  {}

  lemma AtMoment(c: Config, s: State, a: Adr, flush: bool, x: nat)
    requires StateAt(c, s, a, flush, x)
    ensures c.n >= 2 && Sized(c, s) && s.bus == BusifAt(c.geo, a, flush, x)
    ensures s.wp[0].state == WriterAt(x) && s.wp[1].state == SpecialAt(x)
  {}

  lemma LastTag(geo: Geometry, a: Adr, flush: bool)
    requires geo.Valid()
    ensures var b := BusifAt(geo, a, flush, 11);
      b.adr == a && BTagWr(b) && BTagOut(b, geo) == DirtyTag(geo, a).(dirty := false, valid := !flush)
  {}

  // With two CPUs or more there is a run in which an acknowledged write is lost. In cycle 2 write port 1 starts a
  // writeback or flush of the line at 'a' without the line lock, which write port 0 is granted for its write to 'a'.
  // The bus interface finds the line dirty and reads it in cycle 8. Port 0 finds it dirty in cycle 9 and writes to the
  // word in cycle 10, acknowledged. In cycle 11 the bus interface writes the tag: clean, and not valid in a flush.
  lemma SpecialLosesWrite(c: Config, a: Adr, flush: bool) returns (tr: seq<State>, ins: seq<Inputs>)
    requires c.Valid() && c.n >= 2
    ensures |ins| == 11 && Run(c, tr, ins)
    ensures |tr[2].wp| == |tr[3].wp| == c.n && StartsSpecial(c, tr, 2, 1)
    ensures Legal(c, tr[2], ins[2]) && GrantsAt(c, tr, ins, 2).linelock[0] && !GrantsAt(c, tr, ins, 2).linelock[1]
    ensures forall x | 5 <= x <= 9 :: UnlockedFor1(c, tr[x], ins[x])
    ensures tr[6].bus.pc.TagRead? && ins[6].busTag == DirtyTag(c.geo, a)
    ensures LineIsRead(c, tr[8], ins[8])
    ensures |tr[9].wp| == |ins[9].wp| == c.n && tr[9].wp[0].state.ReadTag? && ins[9].wp[0].tag == DirtyTag(c.geo, a)
    ensures WriteIsAcked(c, tr[10], ins[10], a)
    ensures tr[11].bus.adr == a && BTagWr(tr[11].bus)
    ensures BTagOut(tr[11].bus, c.geo) == DirtyTag(c.geo, a).(dirty := false, valid := !flush)
  {
    hide GrantsOf, Step, Initial, InputsAt, StateAt, SameRequest, Legal, UnlockedFor1;
    tr, ins := RaceRuns(c, a, flush);
    forall x | 0 <= x < 11
      ensures Legal(c, tr[x], ins[x])
    {
      StateLegal(c, tr[x], a, flush, x);
    }
    forall x | 5 <= x <= 9
      ensures UnlockedFor1(c, tr[x], ins[x])
    {
      RunServes(c, tr, ins, x);
      UnlockedAt(c, tr[x], a, flush, x);
    }
    LockToWriter(c, tr[2], a, flush, 2);
    VictimGranted(c, tr[8], a, flush);
    WriteGranted(c, tr[10], a, flush);
    AtMoment(c, tr[2], a, flush, 2);
    AtMoment(c, tr[3], a, flush, 3);
    AtMoment(c, tr[6], a, flush, 6);
    AtMoment(c, tr[9], a, flush, 9);
    PartsOf(c, a, flush, 6);
    PartsOf(c, a, flush, 9);
    LastTag(c.geo, a, flush);
  }
}
