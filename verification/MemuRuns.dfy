// Concrete runs of the memory unit, in which one write port works alone.

module MemuRuns {
  import opened Words
  import opened Address
  import opened ArbiterSpec
  import opened BankArbiter
  import opened WritePortSpec
  import opened ReadPortSpec
  import opened BusIfSpec
  import opened MemuSpec
  import opened MemuProofs
  import opened MemuSafety
  import opened MemuHistory

  // Every port but write port 'q' is idle, and the bus interface asks for no line lock and no bank.
  ghost predicate Solo(c: Config, s: State, q: nat) {
    && c.Valid() && Sized(c, s) && q < c.n
    && (forall p | 0 <= p < c.n && p != q :: s.wp[p].state == Init && !s.pending[p])
    && (forall p | 0 <= p < 2 * c.n :: s.rp[p] == RInit)
    && !BReqLinelock(s.bus) && !s.bus.pc.VictimRead? && !s.bus.pc.Fill? && !WordIsRead(s.bus)
  }

  predicate Quiet(i: WpIn) {
    !HasRequest(i)
  }

  // The other CPUs request nothing but links, and port and bus interface do not ask for tags at the same time.
  ghost predicate SoloIn(c: Config, s: State, i: Inputs, q: nat) {
    && Solo(c, s, q) && Legal(c, s, i)
    && (forall p | 0 <= p < c.n && p != q :: Quiet(i.wp[p]))
    && (forall p | 0 <= p < 2 * c.n :: !i.rp[p].rd)
    && !((ReqTagr(s.wp[q], i.wp[q]) || ReqTagw(s.wp[q])) && (BReqTagr(s.bus) || BReqTagw(s.bus)))
  }

  function SoloGnt(r: WpRegs, i: WpIn, ready: bool): WpGnt {
    WpGnt(ReqLinelock(r, i, ReqBank(r, i)), ready && ReqTagr(r, i), ready && ReqTagw(r), ReqBank(r, i), ReqBusif(r, i))
  }

  function SoloBusGnt(b: BusRegs, banks: nat, ready: bool): BusGnt {
    BusGnt(false, ready && BReqTagr(b), ready && BReqTagw(b), AllOff(banks))
  }

  lemma QuietPort(r: WpRegs, i: WpIn, gntBank: bool)
    requires r.state == Init && Quiet(i)
    ensures !ReqTagr(r, i) && !ReqTagw(r) && !ReqBank(r, i) && !ReqBusif(r, i) && !ReqLinelock(r, i, gntBank)
  {}

  lemma QuietReader(j: RpIn)
    requires !j.rd
    ensures !RReqTagr(RInit, j) && !RReqBank(RInit, j) && !RReqBusif(RInit, j)
  {}

  lemma OneTagRequest(r: WpRegs, i: WpIn, b: BusRegs)
    ensures !(ReqTagr(r, i) && ReqTagw(r)) && !(BReqTagr(b) && BReqTagw(b))
  {}

  lemma NoBusBank(u: BusRegs, b: nat)
    requires !u.pc.VictimRead? && !u.pc.Fill?
    ensures !BReqBank(u, b)
  {}

  // Nobody but the lone port and the bus interface asks for anything.
  lemma SoloAsks(c: Config, s: State, i: Inputs, q: nat, j: nat)
    requires SoloIn(c, s, i, q) && j < 3 * c.n && j != 2 * c.n + q
    ensures !TagrReqs(c, s, i)[j] && !BusifReqs(c, s, i)[j]
    ensures forall b | 0 <= b < c.geo.banks :: !BankReqs(c, s, i, b)[j]
  {
    hide ReqTagr, RReqTagr, ReqBusif, RReqBusif, ReqBank, RReqBank, BReqTagr, BReqTagw, BReqBank, Geometry.Bank;
    if j < 2 * c.n {
      QuietReader(i.rp[j]);
    } else {
      QuietPort(s.wp[j - 2 * c.n], i.wp[j - 2 * c.n], false);
    }
  }

  lemma SoloTagr(c: Config, s: State, i: Inputs, q: nat)
    requires SoloIn(c, s, i, q)
    ensures OnlyLine(TagrReqs(c, s, i), if BReqTagr(s.bus) then 3 * c.n else 2 * c.n + q)
  {
    hide ReqTagr, RReqTagr, BReqTagr, BReqTagw, ReqTagw;
    var req := TagrReqs(c, s, i);
    forall j | 0 <= j < 3 * c.n && j != 2 * c.n + q
      ensures !req[j]
    {
      SoloAsks(c, s, i, q, j);
    }
  }

  lemma SoloTagw(c: Config, s: State, i: Inputs, q: nat)
    requires SoloIn(c, s, i, q)
    ensures OnlyLine(TagwReqs(c, s, i), if BReqTagw(s.bus) then c.n else q)
  {
    hide ReqTagr, RReqTagr, BReqTagr, BReqTagw, ReqTagw;
    var req := TagwReqs(c, s, i);
    forall j | 0 <= j < c.n && j != q
      ensures !req[j]
    {
      QuietPort(s.wp[j], i.wp[j], false);
    }
  }

  lemma SoloTags(c: Config, s: State, i: Inputs, q: nat)
    requires SoloIn(c, s, i, q)
    ensures var reqR, reqW := TagrReqs(c, s, i), TagwReqs(c, s, i);
      && TagReadGrants(s.tagr, reqR, reqW, c.n) == reqR
      && TagWriteGrants(s.tagw, reqW, reqR, c.n, i.prio) == reqW
  {
    var reqR, reqW := TagrReqs(c, s, i), TagwReqs(c, s, i);
    SoloTagr(c, s, i, q);
    SoloTagw(c, s, i, q);
    OneTagRequest(s.wp[q], i.wp[q], s.bus);
    var kr := if BReqTagr(s.bus) then 3 * c.n else 2 * c.n + q;
    var kw := if BReqTagw(s.bus) then c.n else q;
    assert reqR[kr] ==> !reqW[kw];
    hide ReqTagr, ReqTagw, BReqTagr, BReqTagw, RReqTagr, TagReadGrants, TagWriteGrants, TagrReqs, TagwReqs, SoloIn;
    SoleTagReader(s.tagr, reqR, reqW, c.n, kr);
    SoleTagWriter(s.tagw, reqW, reqR, c.n, i.prio, kw);
  }

  lemma SoloBusif(c: Config, s: State, i: Inputs, q: nat)
    requires SoloIn(c, s, i, q)
    ensures BusIfGrants(s.busif, BusifReqs(c, s, i), c.n, i.prio) == BusifReqs(c, s, i)
    ensures OnlyLine(BusifReqs(c, s, i), 2 * c.n + q)
  {
    hide BusIfGrants, BusifReqs;
    var req := BusifReqs(c, s, i);
    forall j | 0 <= j < 3 * c.n && j != 2 * c.n + q
      ensures !req[j]
    {
      SoloAsks(c, s, i, q, j);
    }
    SoleBusifUser(s.busif, req, c.n, i.prio, 2 * c.n + q);
  }

  lemma SoloBank(c: Config, s: State, i: Inputs, q: nat, b: nat)
    requires SoloIn(c, s, i, q) && b < c.geo.banks
    ensures BankGrants(s.banks[b], BankReqs(c, s, i, b), WayIndices(c, s, i), c.n, i.prio) == BankReqs(c, s, i, b)
    ensures OnlyLine(BankReqs(c, s, i, b), 2 * c.n + q)
  {
    var req := BankReqs(c, s, i, b);
    NoBusBank(s.bus, b);
    assert !req[3 * c.n];
    hide BankGrants, WayIndices, BankReqs;
    forall j | 0 <= j < 3 * c.n && j != 2 * c.n + q
      ensures !req[j]
    {
      SoloAsks(c, s, i, q, j);
    }
    hide SoloIn;
    SoleBankUser(s.banks[b], req, WayIndices(c, s, i), c.n, i.prio, 2 * c.n + q);
  }

  lemma SoloLineLock(c: Config, s: State, i: Inputs, q: nat, banks: seq<Lines>)
    requires SoloIn(c, s, i, q) && BanksSized(c, banks)
    ensures var req := LinelockReqs(c, s, i, banks);
      OnlyLine(req, q) && LineLockGrants(s.linelock, req, WorkIndices(c, s, i), i.prio) == req
  {
    hide ReqLinelock, LineLockGrants, WorkIndices, BReqLinelock;
    var req := LinelockReqs(c, s, i, banks);
    forall j | 0 <= j < c.n && j != q
      ensures !req[j]
    {
      QuietPort(s.wp[j], i.wp[j], banks[c.geo.Bank(i.wp[j].adr)][2 * c.n + j]);
    }
    SoleLineLock(s.linelock, req, WorkIndices(c, s, i), i.prio, q);
  }

  // The grants of such a cycle are the requests.
  ghost predicate AsAsked(c: Config, s: State, i: Inputs, q: nat, g: Grants)
    requires Legal(c, s, i)
  {
    && q < c.n && GrantsSized(c, g)
    && g.tagr == (if s.tagReady then TagrReqs(c, s, i) else AllOff(3 * c.n + 1))
    && g.tagw == (if s.tagReady then TagwReqs(c, s, i) else AllOff(c.n + 1))
    && g.busif == BusifReqs(c, s, i)
    && (forall b | 0 <= b < c.geo.banks :: g.banks[b] == BankReqs(c, s, i, b))
    && g.linelock == LinelockReqs(c, s, i, g.banks)
  }

  lemma SoloGrants(c: Config, s: State, i: Inputs, q: nat)
    requires Legal(c, s, i) && SoloIn(c, s, i, q)
    ensures AsAsked(c, s, i, q, GrantsOf(c, s, i))
  {
    hide TagReadGrants, TagWriteGrants, BusIfGrants, BankGrants, LineLockGrants, WayIndices, WorkIndices, BankReqs;
    assert q < c.n;
    hide TagrReqs, TagwReqs, BusifReqs, LinelockReqs, SoloIn, OnlyLine;
    var g := GrantsOf(c, s, i);
    SoloTags(c, s, i, q);
    SoloBusif(c, s, i, q);
    forall b | 0 <= b < c.geo.banks
      ensures g.banks[b] == BankReqs(c, s, i, b)
    {
      SoloBank(c, s, i, q, b);
    }
    SoloLineLock(c, s, i, q, g.banks);
  }

  // How the ports and the bus interface see these grants.
  lemma SoloWpBank(c: Config, s: State, i: Inputs, q: nat, g: Grants, p: nat)
    requires Legal(c, s, i) && AsAsked(c, s, i, q, g) && p < c.n
    ensures g.banks[c.geo.Bank(i.wp[p].adr)][2 * c.n + p] == ReqBank(s.wp[p], i.wp[p])
  {
    hide ReqBank, TagrReqs, TagwReqs, BusifReqs, LinelockReqs, Geometry.Bank;
    var b := c.geo.Bank(i.wp[p].adr);
    assert g.banks[b] == BankReqs(c, s, i, b);
  }

  lemma LockRequest(c: Config, s: State, i: Inputs, banks: seq<Lines>, p: nat)
    requires Legal(c, s, i) && BanksSized(c, banks) && p < c.n
    ensures LinelockReqs(c, s, i, banks)[p] ==
      ReqLinelock(s.wp[p], i.wp[p], banks[c.geo.Bank(i.wp[p].adr)][2 * c.n + p])
  {
    hide ReqLinelock, Geometry.Bank, BReqLinelock;
  }

  lemma SoloWpLock(c: Config, s: State, i: Inputs, q: nat, g: Grants, p: nat)
    requires Legal(c, s, i) && AsAsked(c, s, i, q, g) && p < c.n
    ensures g.linelock[p] == ReqLinelock(s.wp[p], i.wp[p], ReqBank(s.wp[p], i.wp[p]))
  {
    SoloWpBank(c, s, i, q, g, p);
    LockRequest(c, s, i, g.banks, p);
    assert g.linelock == LinelockReqs(c, s, i, g.banks);
    hide AsAsked, ReqBank, ReqLinelock, LinelockReqs, Geometry.Bank;
  }

  lemma SoloWpRest(c: Config, s: State, i: Inputs, q: nat, g: Grants, p: nat)
    requires Legal(c, s, i) && AsAsked(c, s, i, q, g) && p < c.n
    ensures g.busif[2 * c.n + p] == ReqBusif(s.wp[p], i.wp[p])
    ensures g.tagr[2 * c.n + p] == (s.tagReady && ReqTagr(s.wp[p], i.wp[p]))
    ensures g.tagw[p] == (s.tagReady && ReqTagw(s.wp[p]))
  {
    hide ReqBusif, ReqTagr, ReqTagw, RReqBusif, RReqTagr, BReqTagr, BReqTagw, BankReqs, LinelockReqs;
  }

  lemma SoloWp(c: Config, s: State, i: Inputs, q: nat, g: Grants, p: nat)
    requires Legal(c, s, i) && AsAsked(c, s, i, q, g) && p < c.n
    ensures WpGrants(c, i, g, p) == SoloGnt(s.wp[p], i.wp[p], s.tagReady)
  {
    SoloWpBank(c, s, i, q, g, p);
    SoloWpLock(c, s, i, q, g, p);
    SoloWpRest(c, s, i, q, g, p);
    assert GrantsSized(c, g);
    hide AsAsked, TagrReqs, TagwReqs, BusifReqs, BankReqs, LinelockReqs, WayIndices, Sized, BanksSized, SameRequest;
    hide ReqBank, ReqLinelock, ReqBusif, ReqTagr, ReqTagw, Geometry.Bank;
  }

  lemma SoloRp(c: Config, s: State, i: Inputs, q: nat, g: Grants, p: nat)
    requires Legal(c, s, i) && SoloIn(c, s, i, q) && AsAsked(c, s, i, q, g) && p < 2 * c.n
    ensures RpGrants(c, i, g, p) == RpGnt(false, false, false)
  {
    hide ReqTagr, ReqTagw, ReqBank, ReqBusif, ReqLinelock, BReqTagr, BReqTagw, BReqLinelock, Geometry.Bank;
    hide RReqTagr, RReqBank, RReqBusif;
    var b := c.geo.Bank(i.rp[p].adr);
    assert g.banks[b] == BankReqs(c, s, i, b);
    QuietReader(i.rp[p]);
    hide SoloIn;
  }

  lemma SoloBusBank(c: Config, s: State, i: Inputs, q: nat, g: Grants, b: nat)
    requires Legal(c, s, i) && SoloIn(c, s, i, q) && AsAsked(c, s, i, q, g) && b < c.geo.banks
    ensures !g.banks[b][3 * c.n]
  {
    hide ReqTagr, ReqTagw, ReqBank, ReqBusif, ReqLinelock, BReqTagr, BReqTagw, BReqLinelock, Geometry.Bank, BReqBank;
    hide RReqTagr, RReqBank, RReqBusif, TagrReqs, TagwReqs, BusifReqs, LinelockReqs, SameRequest, WordIsRead;
    NoBusBank(s.bus, b);
    assert g.banks[b] == BankReqs(c, s, i, b);
  }

  lemma SoloBusLines(c: Config, s: State, i: Inputs, q: nat, g: Grants)
    requires Legal(c, s, i) && SoloIn(c, s, i, q) && AsAsked(c, s, i, q, g)
    ensures !g.linelock[c.n]
    ensures g.tagr[3 * c.n] == (s.tagReady && BReqTagr(s.bus)) && g.tagw[c.n] == (s.tagReady && BReqTagw(s.bus))
  {
    hide ReqTagr, ReqTagw, ReqBank, ReqBusif, ReqLinelock, BReqTagr, BReqTagw, BReqLinelock, Geometry.Bank, BReqBank;
    hide RReqTagr, RReqBank, RReqBusif, BankReqs, BusifReqs, SameRequest, WordIsRead;
  }

  lemma SoloBus(c: Config, s: State, i: Inputs, q: nat, g: Grants)
    requires Legal(c, s, i) && SoloIn(c, s, i, q) && AsAsked(c, s, i, q, g)
    ensures BusGrants(c, g) == SoloBusGnt(s.bus, c.geo.banks, s.tagReady)
  {
    hide SoloIn, AsAsked, BReqTagr, BReqTagw, SameRequest;
    AsAskedSized(c, s, i, q, g);
    SoloBusLines(c, s, i, q, g);
    forall b | 0 <= b < c.geo.banks
      ensures !g.banks[b][3 * c.n]
    {
      SoloBusBank(c, s, i, q, g, b);
    }
  }

  lemma AsAskedSized(c: Config, s: State, i: Inputs, q: nat, g: Grants)
    requires Legal(c, s, i) && AsAsked(c, s, i, q, g)
    ensures q < c.n && GrantsSized(c, g)
  {
    hide TagrReqs, TagwReqs, BusifReqs, BankReqs, LinelockReqs;
  }

  lemma SoloOwner(c: Config, s: State, i: Inputs, q: nat, g: Grants)
    requires Legal(c, s, i) && SoloIn(c, s, i, q) && AsAsked(c, s, i, q, g)
    ensures LockOwner(c, g.linelock) == if ReqLinelock(s.wp[q], i.wp[q], ReqBank(s.wp[q], i.wp[q])) then q else -1
  {
    SoloLineLock(c, s, i, q, g.banks);
    SoloWpLock(c, s, i, q, g, q);
    hide SoloIn, LinelockReqs, AsAsked;
    assert g.linelock[q] == ReqLinelock(s.wp[q], i.wp[q], ReqBank(s.wp[q], i.wp[q]));
  }

  function SoloOffer(r: WpRegs, w: WpIn, ack: bool, tag: CacheTag): BusIn {
    if ReqBusif(r, w) then BusIn(BusifOp(r, w), true, w.adr, ack, tag) else BusIn(Nothing, false, 0, ack, tag)
  }

  lemma OnlySet(v: Lines, k: nat)
    requires k < |v| && OnlyLine(v, k)
    ensures LastSet(v, |v|) == if v[k] then k else -1
  {}

  lemma SoloOffered(c: Config, s: State, i: Inputs, q: nat, g: Grants)
    requires Legal(c, s, i) && SoloIn(c, s, i, q) && AsAsked(c, s, i, q, g)
    ensures Offered(c, s, i, g.busif) == SoloOffer(s.wp[q], i.wp[q], i.busAck, i.busTag)
  {
    hide Solo, BusIfGrants, ReqBusif, RReqBusif, BusifOp, RBusifOp, LinelockReqs, BankReqs, TagrReqs, TagwReqs;
    SoloBusif(c, s, i, q);
    assert g.busif[2 * c.n + q] == ReqBusif(s.wp[q], i.wp[q]);
    hide SoloIn, AsAsked, BusifReqs, LastSet, Sized;
    OnlySet(g.busif, 2 * c.n + q);
  }

  // The register values after such a cycle.
  ghost predicate SoloNext(c: Config, s: State, i: Inputs, q: nat, t: State)
    requires Legal(c, s, i) && SoloIn(c, s, i, q)
  {
    var r, w := s.wp[q], i.wp[q];
    var locks := ReqLinelock(r, w, ReqBank(r, w));
    && Sized(c, t) && t.tagReady && t.lastIn == i.wp
    && t.wp[q] == NextRegs(r, w, SoloGnt(r, w, s.tagReady), false, 0)
    && t.pending[q] == (HasRequest(w) && !Ack(r, w, SoloGnt(r, w, s.tagReady)))
    && t.bus == BusNext(s.bus, c.geo, SoloOffer(r, w, i.busAck, i.busTag), SoloBusGnt(s.bus, c.geo.banks, s.tagReady))
    && (forall p | 0 <= p < 2 * c.n :: t.rp[p] == RInit)
    && (forall p | 0 <= p < c.n && p != q :: t.wp[p].state == Init && !t.pending[p])
    && (forall p | 0 <= p < c.n && p != q ::
      t.wp[p].linkAdr == (if Links(s.wp[p], i.wp[p]) then i.wp[p].adr else s.wp[p].linkAdr))
    && (forall p | 0 <= p < c.n && p != q ::
        t.wp[p].linkValid == (Links(s.wp[p], i.wp[p]) || (s.wp[p].linkValid && !(locks && w.adr == s.wp[p].linkAdr))))
  }

  // The grants of the cycle, as the ports see them.
  ghost predicate SoloSeen(c: Config, s: State, i: Inputs, q: nat, g: Grants)
    requires Legal(c, s, i) && GrantsSized(c, g) && q < c.n
  {
    && (forall p | 0 <= p < c.n :: WpGrants(c, i, g, p) == SoloGnt(s.wp[p], i.wp[p], s.tagReady))
    && BusGrants(c, g) == SoloBusGnt(s.bus, c.geo.banks, s.tagReady)
    && Offered(c, s, i, g.busif) == SoloOffer(s.wp[q], i.wp[q], i.busAck, i.busTag)
    && LockOwner(c, g.linelock) == (if ReqLinelock(s.wp[q], i.wp[q], ReqBank(s.wp[q], i.wp[q])) then q else -1)
    && (forall p | 0 <= p < 2 * c.n :: RpGrants(c, i, g, p) == RpGnt(false, false, false))
  }

  lemma SoloSees(c: Config, s: State, i: Inputs, q: nat, g: Grants)
    requires Legal(c, s, i) && SoloIn(c, s, i, q) && AsAsked(c, s, i, q, g)
    ensures SoloSeen(c, s, i, q, g)
  {
    hide SoloIn, AsAsked, ReqLinelock, ReqBank, WpGrants, RpGrants, SoloGnt, SoloBusGnt, SoloOffer, Offered, LockOwner;
    hide BusGrants, TagrReqs, TagwReqs, BusifReqs, BankReqs, LinelockReqs;
    AsAskedSized(c, s, i, q, g);
    SoloOwner(c, s, i, q, g);
    SoloOffered(c, s, i, q, g);
    SoloBus(c, s, i, q, g);
    forall p | 0 <= p < 2 * c.n
      ensures RpGrants(c, i, g, p) == RpGnt(false, false, false)
    {
      SoloRp(c, s, i, q, g, p);
    }
    forall p | 0 <= p < c.n
      ensures WpGrants(c, i, g, p) == SoloGnt(s.wp[p], i.wp[p], s.tagReady)
    {
      SoloWp(c, s, i, q, g, p);
    }
  }

  lemma QuietStep(r: WpRegs, i: WpIn, g: WpGnt)
    requires r.state == Init && Quiet(i)
    ensures NextState(r, i, g) == Init
  {}

  lemma QuietReads(j: RpIn, h: RpGnt)
    requires !j.rd
    ensures RNextState(RInit, j, h) == RInit
  {}

  lemma SoloOthers(c: Config, s: State, i: Inputs, q: nat, g: Grants, t: State, p: nat)
    requires Legal(c, s, i) && SoloIn(c, s, i, q) && GrantsSized(c, g) && SoloSeen(c, s, i, q, g)
      && Advances(c, s, i, g, t)
    requires p < c.n && p != q
    ensures var locks, a := ReqLinelock(s.wp[q], i.wp[q], ReqBank(s.wp[q], i.wp[q])), i.wp[q].adr;
      && t.wp[p].state == Init && !t.pending[p]
      && t.wp[p].linkAdr == (if Links(s.wp[p], i.wp[p]) then i.wp[p].adr else s.wp[p].linkAdr)
      && t.wp[p].linkValid == (Links(s.wp[p], i.wp[p]) || (s.wp[p].linkValid && !(locks && a == s.wp[p].linkAdr)))
  {
    QuietStep(s.wp[p], i.wp[p], WpGrants(c, i, g, p));
    assert s.wp[p].state == Init && Quiet(i.wp[p]);
    hide SoloIn, NextState, BusNext, ReqLinelock, ReqBank, SoloGnt, SoloBusGnt, SoloOffer, Offered, LockOwner, Ack;
    hide Links;
    hide RNextState, BusGrants, WayIndices, RpGrants, WpGrants;
    assert t.wp[p] == NextWp(c, s, i, g, p);
  }

  lemma SoloAdvances(c: Config, s: State, i: Inputs, q: nat, g: Grants, t: State)
    requires Legal(c, s, i) && SoloIn(c, s, i, q) && GrantsSized(c, g) && SoloSeen(c, s, i, q, g)
      && Advances(c, s, i, g, t)
    ensures SoloNext(c, s, i, q, t)
  {
    forall p | 0 <= p < 2 * c.n
      ensures t.rp[p] == RInit
    {
      QuietReads(i.rp[p], RpGnt(false, false, false));
    }
    forall p | 0 <= p < c.n && p != q
      ensures t.wp[p].state == Init && !t.pending[p]
      ensures t.wp[p].linkAdr == (if Links(s.wp[p], i.wp[p]) then i.wp[p].adr else s.wp[p].linkAdr)
      ensures t.wp[p].linkValid == (Links(s.wp[p], i.wp[p]) ||
        (s.wp[p].linkValid && !(ReqLinelock(s.wp[q], i.wp[q], ReqBank(s.wp[q], i.wp[q]))
          && i.wp[q].adr == s.wp[p].linkAdr)))
    {
      SoloOthers(c, s, i, q, g, t, p);
    }
    hide Solo, NextState, BusNext, ReqLinelock, ReqBank, SoloGnt, SoloBusGnt, SoloOffer, Offered, LockOwner, Ack, Links;
    hide RNextState, BusGrants, WayIndices, RpGrants, WpGrants;
    assert t.wp[q] == NextWp(c, s, i, g, q);
  }

  lemma SoloStep(c: Config, s: State, i: Inputs, q: nat)
    requires Legal(c, s, i) && SoloIn(c, s, i, q)
    ensures SoloNext(c, s, i, q, Step(c, s, i)) && SoloSeen(c, s, i, q, GrantsOf(c, s, i))
  {
    hide SoloNext, SoloSeen, Advance, GrantsOf, Advances;
    var g := GrantsOf(c, s, i);
    SoloGrants(c, s, i, q);
    SoloSees(c, s, i, q, g);
    AdvanceAdvances(c, s, i, g);
    SoloAdvances(c, s, i, q, g, Step(c, s, i));
  }

  // ---------- Building a run ----------

  // Port 'q' gets the inputs 'w', port 'p' the inputs 'l', all others are idle.
  function SoloInputs(c: Config, q: nat, w: WpIn, p: nat, l: WpIn, busy: bool): (i: Inputs)
    ensures |i.wp| == c.n && |i.rp| == 2 * c.n
  {
    Inputs(0,
      seq(c.n, k requires 0 <= k < c.n => if k == q then w else if k == p then l else NO_REQUEST.(busy := busy)),
      seq(2 * c.n, _ => RpIn(false, false, 0, false, NO_TAG, ZERO_WORD, ZERO_WORD, busy)), false, NO_TAG)
  }

  lemma SoloStarts(c: Config, q: nat) returns (s: State)
    requires c.Valid() && q < c.n
    ensures Initial(c, s) && Solo(c, s, q) && s.wp[q].state == Init && !s.pending[q] && s.bus == RESET
  {
    s := RunStarts(c);
  }

  // One more cycle.
  lemma Continue(c: Config, s: State, q: nat, w: WpIn, p: nat, l: WpIn) returns (i: Inputs, t: State)
    requires Solo(c, s, q) && p < c.n
    requires w.busy == l.busy == s.bus.busy && Quiet(l) && (s.pending[q] ==> SameRequest(w, s.lastIn[q]))
    requires !((ReqTagr(s.wp[q], w) || ReqTagw(s.wp[q])) && (BReqTagr(s.bus) || BReqTagw(s.bus)))
    ensures i == SoloInputs(c, q, w, p, l, w.busy)
    ensures Legal(c, s, i) && SoloIn(c, s, i, q) && t == Step(c, s, i)
    ensures SoloNext(c, s, i, q, t)
    ensures SoloSeen(c, s, i, q, GrantsOf(c, s, i))
  {
    hide SoloNext, SoloSeen, GrantsOf, Initial, Step, ReqTagr, ReqTagw, BReqTagr, BReqTagw, BReqLinelock;
    i := SoloInputs(c, q, w, p, l, w.busy);
    assert Legal(c, s, i);
    t := Step(c, s, i);
    SoloStep(c, s, i, q);
  }

  // ---------- A write that a link does not see ----------

  // A write of the full word at 'a'.
  function WriteOf(a: Adr, tag: CacheTag): WpIn {
    WpIn(true, false, ALL_BYTES, false, false, false, a, ZERO_WORD, tag, ZERO_WORD, false)
  }

  // A load link of the word at 'a', and the CPU that keeps showing this address.
  function LinkOf(a: Adr): WpIn {
    WpIn(false, false, NO_BYTES, true, false, false, a, ZERO_WORD, NO_TAG, ZERO_WORD, false)
  }

  function ShowOf(a: Adr): WpIn {
    LinkOf(a).(rlinkWcond := false)
  }

  // The register values after a cycle in which write port 1 works alone and the bus interface is idle.
  lemma WriterAlone(c: Config, s: State, i: Inputs, t: State)
    requires Legal(c, s, i) && SoloIn(c, s, i, 1) && SoloNext(c, s, i, 1, t) && s.bus == RESET
    requires !ReqBusif(s.wp[1], i.wp[1])
    ensures t.bus == RESET && Solo(c, t, 1)
    ensures t.wp[1] == NextRegs(s.wp[1], i.wp[1], SoloGnt(s.wp[1], i.wp[1], s.tagReady), false, 0)
    ensures t.pending[1] ==> HasRequest(i.wp[1]) && t.lastIn[1] == i.wp[1]
    ensures t.tagReady
  {}

  // Write port 1 is in state 'st' of its write to 'a', port 0 is idle and has linked 'a' if 'linked'.
  ghost predicate Writing(c: Config, s: State, st: WpState, a: Adr, linked: bool) {
    && c.n >= 2 && Solo(c, s, 1) && s.bus == RESET && s.wp[1].state == st
    && (s.pending[1] ==> SameRequest(WriteOf(a, NO_TAG), s.lastIn[1]))
    && (linked ==> s.wp[0].linkValid && s.wp[0].linkAdr == a)
  }

  lemma WriteCycle(c: Config, s: State, st: WpState, a: Adr, linked: bool, w: WpIn, l: WpIn)
    returns (i: Inputs, t: State)
    requires Writing(c, s, st, a, linked)
    requires Quiet(l) && !w.busy && !l.busy && !ReqBusif(s.wp[1], w)
    requires w == WriteOf(a, w.tag) || (w == ShowOf(a) && !s.pending[1])
    requires Links(s.wp[0], l) ==> l.adr == a
    ensures Legal(c, s, i) && t == Step(c, s, i) && i.wp[0] == l && i.wp[1] == w
    ensures Writing(c, t, NextState(s.wp[1], w, SoloGnt(s.wp[1], w, s.tagReady)), a,
      Links(s.wp[0], l) || (linked && !ReqLinelock(s.wp[1], w, ReqBank(s.wp[1], w))))
    ensures WpGrants(c, i, GrantsOf(c, s, i), 1) == SoloGnt(s.wp[1], w, s.tagReady)
    ensures t.tagReady && t.pending[1] == (HasRequest(w) && !Ack(s.wp[1], w, SoloGnt(s.wp[1], w, s.tagReady)))
  {
    hide SoloIn, Initial, Step, GrantsOf, ReqLinelock, ReqBank, ReqTagr, ReqTagw, ReqBusif, NextState, Ack, BusNext;
    hide WpGrants, RpGrants, BusGrants, Offered, SoloGnt, SoloBusGnt;
    i, t := Continue(c, s, 1, w, 0, l);
    WriterAlone(c, s, i, t);
  }

  lemma LinkDuringWrite(c: Config, a: Adr) returns (tr: seq<State>, ins: seq<Inputs>)
    requires c.Valid() && c.n >= 2
    ensures |ins| == 3 && Run(c, tr, ins) && forall k | 0 <= k < |ins| :: Legal(c, tr[k], ins[k])
    ensures Links(tr[2].wp[0], ins[2].wp[0]) && ins[2].wp[0].adr == a
    ensures Writing(c, tr[3], WriteBank, a, true)
  {
    hide Legal, SoloIn, Step, GrantsOf;
    var w, hit := WriteOf(a, NO_TAG), WriteOf(a, CacheTag(true, true, 0, 0));
    var s0 := SoloStarts(c, 1);
    hide Initial;
    var i0, s1 := WriteCycle(c, s0, Init, a, false, ShowOf(a), ShowOf(a));
    var i1, s2 := WriteCycle(c, s1, Init, a, false, w, ShowOf(a));
    var i2, s3 := WriteCycle(c, s2, ReadTag, a, false, hit, LinkOf(a));
    tr, ins := [s0, s1, s2, s3], [i0, i1, i2];
  }

  lemma WriteEnds(c: Config, s: State, a: Adr) returns (i: Inputs, t: State)
    requires Writing(c, s, WriteBank, a, true)
    ensures Legal(c, s, i) && t == Step(c, s, i) && i.wp[0] == ShowOf(a) && i.wp[1] == WriteOf(a, NO_TAG)
    ensures Writing(c, t, Init, a, true) && !t.pending[1]
    ensures var g := WpGrants(c, i, GrantsOf(c, s, i), 1);
      Occurs(BankWritten, s.wp[1], i.wp[1], g) && Ack(s.wp[1], i.wp[1], g)
  {
    hide Legal, Initial, Step, GrantsOf, WpGrants;
    i, t := WriteCycle(c, s, WriteBank, a, true, WriteOf(a, NO_TAG), ShowOf(a));
  }

  // With two CPUs or more there is a run in which port 0 links a word in cycle 2, port 1 writes the word to its bank in
  // cycle 3 and is acknowledged, and in cycle 4 port 0 still reports success for it.
  lemma LinkMissesWrite(c: Config, a: Adr) returns (tr: seq<State>, ins: seq<Inputs>)
    requires c.Valid() && c.n >= 2
    ensures |ins| == 5 && Run(c, tr, ins) && forall k | 0 <= k < |ins| :: Legal(c, tr[k], ins[k])
    ensures Links(tr[2].wp[0], ins[2].wp[0]) && ins[2].wp[0].adr == a
    ensures OtherWrites(c, tr, ins, 0, 3, a)
    ensures Ack(tr[3].wp[1], ins[3].wp[1], WpGrants(c, ins[3], GrantsAt(c, tr, ins, 3), 1))
    ensures WcondOk(tr[4].wp[0], ins[4].wp[0]) && ins[4].wp[0].adr == a
  {
    hide Initial, Step, GrantsOf, Links, WpGrants, Ack, Occurs, NextState, ReqLinelock, ReqBank, SameRequest;
    hide ReqBusif, WayIndices;
    var tr0, ins0 := LinkDuringWrite(c, a);
    var i3, s4 := WriteEnds(c, tr0[3], a);
    NoLink(s4.wp[0], s4.wp[1], a);
    var i4, s5 := WriteCycle(c, s4, Init, a, true, ShowOf(a), ShowOf(a));
    tr, ins := tr0 + [s4, s5], ins0 + [i3, i4];
    assert Occurs(BankWritten, tr[3].wp[1], ins[3].wp[1], WpGrants(c, ins[3], GrantsAt(c, tr, ins, 3), 1));
  }

  lemma NoLink(r: WpRegs, r': WpRegs, a: Adr)
    ensures !Links(r, ShowOf(a))
    ensures r'.state == Init ==> !ReqBusif(r', ShowOf(a))
  {}

  // ---------- A line lock that is carried to a new address ----------

  // A writeback of the line at 'a'.
  function WritebackOf(a: Adr, busy: bool): WpIn {
    WpIn(false, false, NO_BYTES, false, true, false, a, ZERO_WORD, NO_TAG, ZERO_WORD, busy)
  }

  // Write port 0 is in state 'st' of its writeback of 'a', which the bus interface has taken as far as 'b'.
  ghost predicate Serving(c: Config, s: State, st: WpState, b: BusRegs, a: Adr) {
    && Solo(c, s, 0) && s.wp[0].state == st && s.bus == b
    && (s.pending[0] ==> SameRequest(WritebackOf(a, false), s.lastIn[0]))
  }

  function BusAt(pc: Pc, a: Adr): BusRegs {
    BusRegs(pc, if pc.Done? then Nothing else Writeback, true, a, !pc.Done?, NO_TAG, false)
  }

  predicate NoLockNoBank(b: BusRegs) {
    !BReqLinelock(b) && !b.pc.VictimRead? && !b.pc.Fill? && !WordIsRead(b)
  }

  lemma ServeCycle(c: Config, s: State, st: WpState, b: BusRegs, a: Adr, w: WpIn) returns (i: Inputs, t: State)
    requires Serving(c, s, st, b, a) && w.busy == b.busy && (s.pending[0] ==> w == WritebackOf(a, b.busy))
    requires !((ReqTagr(s.wp[0], w) || ReqTagw(s.wp[0])) && (BReqTagr(b) || BReqTagw(b)))
    ensures Legal(c, s, i) && t == Step(c, s, i) && i.wp[0] == w && t.tagReady
    ensures var b' := BusNext(b, c.geo, SoloOffer(s.wp[0], w, false, NO_TAG), SoloBusGnt(b, c.geo.banks, s.tagReady));
      NoLockNoBank(b') && w == WritebackOf(a, w.busy) ==>
        Serving(c, t, NextState(s.wp[0], w, SoloGnt(s.wp[0], w, s.tagReady)), b', a)
    ensures var g := WpGrants(c, i, GrantsOf(c, s, i), 0);
      g == SoloGnt(s.wp[0], w, s.tagReady) && t.pending[0] == (HasRequest(w) && !Ack(s.wp[0], w, g))
  {
    hide SoloIn, Initial, Step, GrantsOf, ReqLinelock, ReqBank, ReqTagr, ReqTagw, BReqTagr, BReqTagw, NextState, Ack;
    hide BusNext;
    hide WpGrants, RpGrants, BusGrants, Offered, SoloGnt, SoloBusGnt, SoloOffer, Links, BReqLinelock;
    i, t := Continue(c, s, 0, w, 0, w.(wr := false, writeback := false, invalidate := false));
  }

  // The course of the writeback of a line that is not dirty, when all grants are given at once.
  function PcAfter(pc: Pc): Pc {
    match pc
    case TagWait => TagRead
    case TagRead => TagHave
    case TagHave => NewWait
    case NewWait => New1
    case New1 => New2
    case _ => Done
  }

  lemma BusGoesOn(geo: Geometry, pc: Pc, a: Adr)
    requires geo.Valid() && (pc.TagWait? || pc.TagRead? || pc.TagHave? || pc.NewWait? || pc.New1? || pc.New2?)
    ensures BusNext(BusAt(pc, a), geo, BusIn(Nothing, true, a, false, NO_TAG),
      SoloBusGnt(BusAt(pc, a), geo.banks, true)) ==
      BusAt(PcAfter(pc), a)
    ensures NoLockNoBank(BusAt(PcAfter(pc), a))
  {}

  lemma WaitingPort(r: WpRegs, a: Adr, busy: bool, ready: bool)
    requires r.state == SpecialWaitComplete
    ensures var w := WritebackOf(a, busy); var g := SoloGnt(r, w, ready);
      && !ReqTagr(r, w) && !ReqTagw(r) && SoloOffer(r, w, false, NO_TAG) == BusIn(Nothing, true, a, false, NO_TAG)
      && NextState(r, w, g) == (if busy then SpecialWaitComplete else Init) && Ack(r, w, g) == !busy && g.linelock
  {}

  lemma WaitCycle(c: Config, s: State, pc: Pc, a: Adr) returns (i: Inputs, t: State)
    requires Serving(c, s, SpecialWaitComplete, BusAt(pc, a), a) && s.tagReady
    requires pc.TagWait? || pc.TagRead? || pc.TagHave? || pc.NewWait? || pc.New1? || pc.New2?
    ensures Legal(c, s, i) && t == Step(c, s, i) && t.tagReady
    ensures Serving(c, t, SpecialWaitComplete, BusAt(PcAfter(pc), a), a)
  {
    WaitingPort(s.wp[0], a, true, true);
    BusGoesOn(c.geo, pc, a);
    hide BusNext, NextState, Ack, ReqTagr, ReqTagw, SoloOffer, SoloBusGnt, SoloGnt, Legal, Step, GrantsOf;
    hide NoLockNoBank, Solo, SameRequest, PcAfter;
    i, t := ServeCycle(c, s, SpecialWaitComplete, BusAt(pc, a), a, WritebackOf(a, true));
  }

  // The first three cycles: the port is granted lock and bus interface, and hands over its operation.
  lemma StartingPort(r: WpRegs, a: Adr, busy: bool, ready: bool)
    requires r.state == Init || r.state == Special
    ensures var w := WritebackOf(a, busy); var g := SoloGnt(r, w, ready);
      && !ReqTagr(r, w) && !ReqTagw(r)
      && SoloOffer(r, w, false, NO_TAG) == BusIn(if r.state == Init then Nothing else Writeback, true, a, false, NO_TAG)
      && (r.state == Init && !busy ==> NextState(r, w, g) == Special)
      && (r.state == Special ==> NextState(r, w, g) == if busy then SpecialWaitComplete else Special)
  {}

  lemma BusStarts(geo: Geometry, a: Adr, ready: bool)
    requires geo.Valid()
    ensures BusNext(RESET, geo, BusIn(Nothing, true, a, false, NO_TAG), SoloBusGnt(RESET, geo.banks, ready)) == RESET
    ensures BusNext(RESET, geo, BusIn(Writeback, true, a, false, NO_TAG), SoloBusGnt(RESET, geo.banks, true)) ==
      BusAt(Idle, a)
    ensures BusNext(BusAt(Idle, a), geo, BusIn(Writeback, true, a, false, NO_TAG),
      SoloBusGnt(BusAt(Idle, a), geo.banks, true)) ==
      BusAt(TagWait, a)
    ensures NoLockNoBank(RESET) && NoLockNoBank(BusAt(Idle, a)) && NoLockNoBank(BusAt(TagWait, a))
  {}

  lemma StartCycle(c: Config, s: State, st: WpState, b: BusRegs, a: Adr) returns (i: Inputs, t: State)
    requires Serving(c, s, st, b, a)
    requires (st == Init && b == RESET) || (st == Special && s.tagReady && (b == RESET || b == BusAt(Idle, a)))
    ensures Legal(c, s, i) && t == Step(c, s, i) && t.tagReady
    ensures Serving(c, t, if b.busy then SpecialWaitComplete else Special,
      if st == Init then RESET else if b.busy then BusAt(TagWait, a) else BusAt(Idle, a), a)
  {
    StartingPort(s.wp[0], a, b.busy, s.tagReady);
    BusStarts(c.geo, a, s.tagReady);
    hide BusNext, NextState, Ack, ReqTagr, ReqTagw, SoloOffer, SoloBusGnt, SoloGnt, Legal, Step, GrantsOf;
    hide NoLockNoBank, Solo;
    hide SameRequest;
    i, t := ServeCycle(c, s, st, b, a, WritebackOf(a, b.busy));
  }

  lemma ServiceStarts(c: Config, a: Adr) returns (tr: seq<State>, ins: seq<Inputs>)
    requires c.Valid()
    ensures |ins| == 3 && Run(c, tr, ins)
    ensures Serving(c, tr[3], SpecialWaitComplete, BusAt(TagWait, a), a) && tr[3].tagReady
  {
    hide Legal, Step, Initial;
    var s0 := SoloStarts(c, 0);
    assert Serving(c, s0, Init, RESET, a);
    hide Serving;
    var i0, s1 := StartCycle(c, s0, Init, RESET, a);
    var i1, s2 := StartCycle(c, s1, Special, RESET, a);
    var i2, s3 := StartCycle(c, s2, Special, BusAt(Idle, a), a);
    tr, ins := [s0, s1, s2, s3], [i0, i1, i2];
  }

  // Then the bus interface works until it is done.
  lemma ServiceDone(c: Config, a: Adr) returns (tr: seq<State>, ins: seq<Inputs>)
    requires c.Valid()
    ensures |ins| == 9 && Run(c, tr, ins)
    ensures Serving(c, tr[9], SpecialWaitComplete, BusAt(Done, a), a) && tr[9].tagReady
  {
    hide Legal, Step, Initial, Serving;
    tr, ins := ServiceStarts(c, a);
    var pc := TagWait;
    while !pc.Done?
      invariant Run(c, tr, ins) && Serving(c, tr[|ins|], SpecialWaitComplete, BusAt(pc, a), a) && tr[|ins|].tagReady
      invariant pc.TagWait? || pc.TagRead? || pc.TagHave? || pc.NewWait? || pc.New1? || pc.New2? || pc.Done?
      invariant |ins| == 9 - Left(pc)
      decreases Left(pc)
    {
      var i, t := WaitCycle(c, tr[|ins|], pc, a);
      tr, ins, pc := tr + [t], ins + [i], PcAfter(pc);
    }
  }

  // The cycles until the bus interface is done.
  function Left(pc: Pc): nat {
    match pc
    case TagWait => 6
    case TagRead => 5
    case TagHave => 4
    case NewWait => 3
    case New1 => 2
    case New2 => 1
    case _ => 0
  }

  // In the cycle of the acknowledge the port still asks for the line lock, and keeps it for its next request.
  lemma ServiceEnds(c: Config, s: State, a: Adr) returns (i: Inputs, t: State)
    requires Serving(c, s, SpecialWaitComplete, BusAt(Done, a), a) && s.tagReady
    ensures Legal(c, s, i) && t == Step(c, s, i) && i.wp[0] == WritebackOf(a, false)
    ensures GrantsOf(c, s, i).linelock[0]
    ensures Serving(c, t, Init, BusAt(Done, a).(pc := Idle), a) && !t.pending[0] && t.tagReady
  {
    WaitingPort(s.wp[0], a, false, true);
    BusRests(c.geo, a);
    hide BusNext, NextState, Ack, ReqTagr, ReqTagw, SoloOffer, SoloBusGnt, SoloGnt, Step, GrantsOf, NoLockNoBank;
    hide SameRequest, WayIndices, BReqTagr, BReqTagw;
    i, t := ServeCycle(c, s, SpecialWaitComplete, BusAt(Done, a), a, WritebackOf(a, false));
    hide Serving;
  }

  lemma BusRests(geo: Geometry, a: Adr)
    requires geo.Valid()
    ensures BusNext(BusAt(Done, a), geo, BusIn(Nothing, true, a, false, NO_TAG),
      SoloBusGnt(BusAt(Done, a), geo.banks, true)) ==
      BusAt(Done, a).(pc := Idle)
    ensures NoLockNoBank(BusAt(Done, a).(pc := Idle))
  {}

  lemma LockKept(c: Config, s: State, a: Adr, b: Adr) returns (i: Inputs, t: State)
    requires Serving(c, s, Init, BusAt(Done, a).(pc := Idle), a) && !s.pending[0]
    ensures Legal(c, s, i) && t == Step(c, s, i) && i.wp[0] == WriteOf(b, NO_TAG)
    ensures GrantsOf(c, s, i).linelock[0]
  {
    hide BusNext, NextState, Ack, SoloOffer, SoloBusGnt, Step, GrantsOf, NoLockNoBank, SameRequest, WayIndices;
    i, t := ServeCycle(c, s, Init, BusAt(Done, a).(pc := Idle), a, WriteOf(b, NO_TAG));
    hide Serving;
  }

  // For any two addresses there is a run in which write port 0 is granted the line lock in cycle 9 for the first and in
  // cycle 10 for the second.
  lemma LockCarried(c: Config, a: Adr, b: Adr) returns (tr: seq<State>, ins: seq<Inputs>)
    requires c.Valid()
    ensures |ins| == 11 && Run(c, tr, ins) && Legal(c, tr[9], ins[9]) && Legal(c, tr[10], ins[10])
    ensures GrantsAt(c, tr, ins, 9).linelock[0] && ins[9].wp[0].adr == a
    ensures GrantsAt(c, tr, ins, 10).linelock[0] && ins[10].wp[0].adr == b
  {
    hide Step, Initial, Serving, GrantsOf;
    var tr0, ins0 := ServiceDone(c, a);
    var i9, s10 := ServiceEnds(c, tr0[9], a);
    var i10, s11 := LockKept(c, s10, a, b);
    tr, ins := tr0 + [s10, s11], ins0 + [i9, i10];
  }
}
