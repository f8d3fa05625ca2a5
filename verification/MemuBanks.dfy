// The bank grants over a cycle of the memory unit. The line lock lets only one write port ask for a bank, and every
// port keeps its bank address while it is granted.

module MemuBanks {
  import opened Words
  import opened Address
  import opened ArbiterSpec
  import opened BankArbiter
  import opened WritePortSpec
  import opened ReadPortSpec
  import opened BusIfSpec
  import opened MemuSpec
  import opened MemuProofs

  // What the bank grants of the last cycle say: on each RAM port they agree on the address, and a port that still asks
  // has kept it.
  ghost predicate BanksOk(c: Config, s: State)
    requires c.Valid() && Sized(c, s)
  {
    && (forall b | 0 <= b < c.geo.banks :: BankConsistent(s.banks[b], s.lastWiadr, c.n))
    && (forall b, p | 0 <= b < c.geo.banks && 0 <= p < c.n && s.banks[b][2 * c.n + p] :: WpKeepsAddress(c, s, p))
    && (forall b, p | 0 <= b < c.geo.banks && 0 <= p < 2 * c.n && s.banks[b][p] :: !HoldsTag(s.rp[p]))
    && (forall b | 0 <= b < c.geo.banks && s.banks[b][3 * c.n] && BReqBank(s.bus, b) :: BusKeepsAddress(c, s))
  }

  ghost predicate WpKeepsAddress(c: Config, s: State, p: nat)
    requires c.Valid() && Sized(c, s) && p < c.n
  {
    !s.wp[p].state.ReadTag? && s.lastWiadr[2 * c.n + p] == c.geo.WayIndex(s.lastIn[p].adr, s.wp[p].tag.way)
  }

  ghost predicate BusKeepsAddress(c: Config, s: State)
    requires c.Valid() && Sized(c, s)
  {
    s.lastWiadr[3 * c.n] == c.geo.WayIndex(s.bus.adr, s.bus.tag.way)
  }

  // The bank grants: only requests, and all held ones that are still asked for; one address and one writer for each
  // RAM port.
  ghost predicate BanksGranted(c: Config, s: State, i: Inputs, g: Grants)
    requires Legal(c, s, i) && GrantsSized(c, g)
  {
    forall b | 0 <= b < c.geo.banks ::
      GrantsKept(s.banks[b], BankReqs(c, s, i, b), g.banks[b]) && BankConsistent(g.banks[b], WayIndices(c, s, i), c.n)
  }

  // ---------- The arbiter's side ----------

  lemma BankUserIsCritical(r: WpRegs, i: WpIn)
    ensures ReqBank(r, i) ==> Critical(r.state)
  {}

  // Only one write port asks for banks.
  lemma OneWriterAsks(c: Config, s: State, i: Inputs, p: nat, q: nat)
    requires Legal(c, s, i) && LockOk(c, s) && p < c.n && q < c.n && p != q
    ensures !(ReqBank(s.wp[p], i.wp[p]) && ReqBank(s.wp[q], i.wp[q]))
  {
    BankUserIsCritical(s.wp[p], i.wp[p]);
    BankUserIsCritical(s.wp[q], i.wp[q]);
    hide ReqBank, Critical;
  }

  // A held grant that is still asked for is for the same address.
  lemma HeldAddress(c: Config, s: State, i: Inputs, b: nat, k: nat)
    requires Legal(c, s, i) && PendingOk(c, s) && BanksOk(c, s) && b < c.geo.banks && k <= 3 * c.n
    requires s.banks[b][k] && BankReqs(c, s, i, b)[k]
    ensures WayIndices(c, s, i)[k] == s.lastWiadr[k]
  {
    hide BankConsistent, ReqBank, BReqBank, HoldsTag, Geometry.WayIndex, Geometry.Bank;
    if k < 2 * c.n {
      ReadersHoldTag(s.rp[k], i.rp[k]);
    } else if k < 3 * c.n {
      var p := k - 2 * c.n;
      WritersAreBusy(s.wp[p], i.wp[p]);
      assert WpKeepsAddress(c, s, p);
      assert SameRequest(i.wp[p], s.lastIn[p]);
    }
  }

  lemma ReadersHoldTag(q: RpState, j: RpIn)
    ensures RReqBank(q, j) ==> HoldsTag(q)
  {}

  lemma WritersAreBusy(r: WpRegs, i: WpIn)
    ensures ReqBank(r, i) ==> r.state != Init
    ensures !r.state.ReadTag? ==> TagOut(r, i).way == r.tag.way
  {}

  lemma KeptBanksConsistent(c: Config, s: State, i: Inputs, b: nat)
    requires Legal(c, s, i) && PendingOk(c, s) && BanksOk(c, s) && b < c.geo.banks
    ensures BankConsistent(Kept(s.banks[b], BankReqs(c, s, i, b)), WayIndices(c, s, i), c.n)
  {
    var kept, req := Kept(s.banks[b], BankReqs(c, s, i, b)), BankReqs(c, s, i, b);
    forall k | 0 <= k <= 3 * c.n && kept[k]
      ensures s.banks[b][k] && WayIndices(c, s, i)[k] == s.lastWiadr[k]
    {
      HeldAddress(c, s, i, b, k);
    }
    hide BankReqs, WayIndices, WpKeepsAddress, BusKeepsAddress, HoldsTag, BReqBank;
    assert BankConsistent(s.banks[b], s.lastWiadr, c.n);
  }

  lemma OtherWritersSilent(c: Config, s: State, i: Inputs, b: nat, k: nat)
    requires Legal(c, s, i) && LockOk(c, s) && b < c.geo.banks && 2 * c.n <= k < 3 * c.n && BankReqs(c, s, i, b)[k]
    ensures forall j | 2 * c.n <= j < 3 * c.n && j != k :: !BankReqs(c, s, i, b)[j]
  {
    forall j | 2 * c.n <= j < 3 * c.n && j != k
      ensures !BankReqs(c, s, i, b)[j]
    {
      OneWriterAsks(c, s, i, k - 2 * c.n, j - 2 * c.n);
    }
  }

  lemma BankIsGranted(c: Config, s: State, i: Inputs, g: Grants, b: nat)
    requires Legal(c, s, i) && PendingOk(c, s) && LockOk(c, s) && BanksOk(c, s) && GrantsSized(c, g) && b < c.geo.banks
    requires g.banks[b] == BankGrants(s.banks[b], BankReqs(c, s, i, b), WayIndices(c, s, i), c.n, i.prio)
    ensures GrantsKept(s.banks[b], BankReqs(c, s, i, b), g.banks[b])
    ensures BankConsistent(g.banks[b], WayIndices(c, s, i), c.n)
  {
    var reg, req, adr := s.banks[b], BankReqs(c, s, i, b), WayIndices(c, s, i);
    KeptBanksConsistent(c, s, i, b);
    BankSafe(reg, req, adr, c.n, i.prio);
    forall k | 0 <= k <= 3 * c.n && reg[k] && req[k]
      ensures g.banks[b][k]
    {
      if 2 * c.n <= k < 3 * c.n {
        OtherWritersSilent(c, s, i, b, k);
      }
      hide BankGrants, BankReqs, WayIndices, BankConsistent, BanksOk, LockOk, PendingOk;
      HeldGrantKept(reg, req, adr, c.n, i.prio, k);
    }
    hide BankGrants, BankReqs, WayIndices, BankConsistent, BanksOk, LockOk, PendingOk, Selected;
  }

  lemma BanksAreGranted(c: Config, s: State, i: Inputs, g: Grants)
    requires Legal(c, s, i) && PendingOk(c, s) && LockOk(c, s) && BanksOk(c, s) && GrantsSized(c, g)
    requires forall b | 0 <= b < c.geo.banks ::
      g.banks[b] == BankGrants(s.banks[b], BankReqs(c, s, i, b), WayIndices(c, s, i), c.n, i.prio)
    ensures BanksGranted(c, s, i, g)
  {
    hide BankGrants, BankReqs, WayIndices, BankConsistent, BanksOk, LockOk, PendingOk, GrantsKept;
    forall b | 0 <= b < c.geo.banks
      ensures GrantsKept(s.banks[b], BankReqs(c, s, i, b), g.banks[b])
      ensures BankConsistent(g.banks[b], WayIndices(c, s, i), c.n)
    {
      BankIsGranted(c, s, i, g, b);
    }
  }

  // ---------- The ports' side ----------

  lemma WpAfterBank(r: WpRegs, i: WpIn, g: WpGnt, stb: bool, adr: Adr)
    requires ReqBank(r, i)
    ensures var n := NextRegs(r, i, g, stb, adr); !n.state.ReadTag? && n.tag.way == TagOut(r, i).way
  {}

  lemma RpAfterBank(q: RpState, j: RpIn, h: RpGnt)
    requires RReqBank(q, j) && h.bank
    ensures !HoldsTag(RNextState(q, j, h))
  {}

  lemma BusAfterBank(b: BusRegs, geo: Geometry, i: BusIn, g: BusGnt, bank: nat)
    requires geo.Valid() && |g.bank| == geo.banks && BusSized(b, geo)
    requires BReqBank(b, bank) && BReqBank(BusNext(b, geo, i, g), bank)
    ensures BusNext(b, geo, i, g).adr == b.adr && BusNext(b, geo, i, g).tag == b.tag
  {}

  lemma AdvanceWpBank(c: Config, s: State, i: Inputs, g: Grants, t: State, b: nat, p: nat)
    requires Advances(c, s, i, g, t) && BanksGranted(c, s, i, g) && b < c.geo.banks && p < c.n
      && t.banks[b][2 * c.n + p]
    ensures WpKeepsAddress(c, t, p)
  {
    hide NextRegs, ReqBank, TagOut, BusNext, RNextState, Ack, Offered, BankConsistent, WpGrants, Geometry.WayIndex;
    assert BankReqs(c, s, i, b)[2 * c.n + p];
    var w := LockOwner(c, g.linelock);
    WpAfterBank(s.wp[p], i.wp[p], WpGrants(c, i, g, p), w >= 0 && w != p, if w >= 0 then i.wp[w].adr else 0);
    assert t.wp[p] == NextWp(c, s, i, g, p);
  }

  lemma AdvanceRpBank(c: Config, s: State, i: Inputs, g: Grants, t: State, b: nat, p: nat)
    requires Advances(c, s, i, g, t) && BanksGranted(c, s, i, g) && b < c.geo.banks && p < 2 * c.n && t.banks[b][p]
    ensures !HoldsTag(t.rp[p])
  {
    hide NextWp, RReqBank, BusNext, RNextState, HoldsTag, Ack, Offered, BankConsistent;
    assert BankReqs(c, s, i, b)[p];
    RpAfterBank(s.rp[p], i.rp[p], RpGrants(c, i, g, p));
  }

  lemma AdvanceBusBank(c: Config, s: State, i: Inputs, g: Grants, t: State, b: nat)
    requires Advances(c, s, i, g, t) && BanksGranted(c, s, i, g) && b < c.geo.banks && t.banks[b][3 * c.n]
    requires BReqBank(t.bus, b)
    ensures BusKeepsAddress(c, t)
  {
    hide NextWp, BReqBank, BusNext, RNextState, HoldsTag, Ack, Offered, BankConsistent, Geometry.WayIndex;
    assert BankReqs(c, s, i, b)[3 * c.n];
    BusAfterBank(s.bus, c.geo, Offered(c, s, i, g.busif), BusGrants(c, g), b);
  }

  lemma AdvanceBanks(c: Config, s: State, i: Inputs, g: Grants, t: State)
    requires Advances(c, s, i, g, t) && BanksGranted(c, s, i, g)
    ensures BanksOk(c, t)
  {
    hide NextWp, BReqBank, BusNext, RNextState, HoldsTag, Ack, Offered, BankConsistent, WayIndices, GrantsKept;
    hide WpKeepsAddress, BusKeepsAddress;
    forall b, p | 0 <= b < c.geo.banks && 0 <= p < c.n && t.banks[b][2 * c.n + p]
      ensures WpKeepsAddress(c, t, p)
    {
      AdvanceWpBank(c, s, i, g, t, b, p);
    }
    forall b, p | 0 <= b < c.geo.banks && 0 <= p < 2 * c.n && t.banks[b][p]
      ensures !HoldsTag(t.rp[p])
    {
      AdvanceRpBank(c, s, i, g, t, b, p);
    }
    forall b | 0 <= b < c.geo.banks && t.banks[b][3 * c.n] && BReqBank(t.bus, b)
      ensures BusKeepsAddress(c, t)
    {
      AdvanceBusBank(c, s, i, g, t, b);
    }
  }
}
