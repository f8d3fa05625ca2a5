// The memory unit put together: arbiter, write ports and read ports with their registers, evaluated and clocked in the
// order in which their signals depend on each other (sysc/memu.cpp).

module MemuUnit {
  import opened Words
  import opened Address
  import opened ArbiterSpec
  import opened BankArbiter
  import opened ArbiterUnit
  import opened WritePortSpec
  import opened ReadPortSpec
  import opened BusIfSpec
  import opened PortUnits
  import opened MemuSpec
  import opened MemuProofs
  import opened MemuTags

  const NO_WP_GNT := WpGnt(false, false, false, false, false)
  const NO_RP_GNT := RpGnt(false, false, false)

  // ---------- The request lines, collected from the signals of the ports ----------

  // The signals are those of state 's': the requests do not depend on the grants, but for the line lock requests.
  ghost predicate SignalsOf(c: Config, s: State, i: Inputs, rp: seq<RpOut>, wp: seq<WpSignals>, g: seq<WpGnt>) {
    && Legal(c, s, i) && |rp| == 2 * c.n && |wp| == |g| == c.n
    && (forall p | 0 <= p < 2 * c.n :: rp[p] == ROutputs(s.rp[p], i.rp[p], NO_RP_GNT))
    && (forall p | 0 <= p < c.n ::
        wp[p].out == Outputs(s.wp[p], i.wp[p], g[p]) && wp[p].tagOut == TagOut(s.wp[p], i.wp[p]))
  }

  function TagrLines(n: nat, rp: seq<RpOut>, wp: seq<WpSignals>, b: BusRegs): Lines
    requires |rp| == 2 * n && |wp| == n
  {
    seq(3 * n + 1, k requires 0 <= k < 3 * n + 1 =>
      if k < 2 * n then rp[k].reqTagr else if k < 3 * n then wp[k - 2 * n].out.reqTagr else BReqTagr(b))
  }

  function TagwLines(n: nat, wp: seq<WpSignals>, b: BusRegs): Lines
    requires |wp| == n
  {
    seq(n + 1, k requires 0 <= k < n + 1 => if k < n then wp[k].out.reqTagw else BReqTagw(b))
  }

  function BusifLines(n: nat, rp: seq<RpOut>, wp: seq<WpSignals>): Lines
    requires |rp| == 2 * n && |wp| == n
  {
    seq(3 * n, k requires 0 <= k < 3 * n => if k < 2 * n then rp[k].reqBusif else wp[k - 2 * n].out.reqBusif)
  }

  function LinelockLines(n: nat, wp: seq<WpSignals>, b: BusRegs): Lines
    requires |wp| == n
  {
    seq(n + 1, k requires 0 <= k < n + 1 => if k < n then wp[k].out.reqLinelock else BReqLinelock(b))
  }

  // Each port asks for the bank of its address only.
  function BankLines(c: Config, i: Inputs, rp: seq<RpOut>, wp: seq<WpSignals>, b: BusRegs, bank: nat): Lines
    requires c.geo.banks > 0 && |rp| == |i.rp| == 2 * c.n && |wp| == |i.wp| == c.n
  {
    seq(3 * c.n + 1, k requires 0 <= k < 3 * c.n + 1 =>
      if k < 2 * c.n then rp[k].reqBank && c.geo.Bank(i.rp[k].adr) == bank
      else if k < 3 * c.n then wp[k - 2 * c.n].out.reqBank && c.geo.Bank(i.wp[k - 2 * c.n].adr) == bank
      else BReqBank(b, bank))
  }

  function WayLines(c: Config, i: Inputs, wp: seq<WpSignals>, b: BusRegs): seq<nat>
    requires c.geo.banks > 0 && c.geo.sets > 0 && |i.rp| == 2 * c.n && |wp| == |i.wp| == c.n
  {
    seq(3 * c.n + 1, k requires 0 <= k < 3 * c.n + 1 =>
      if k < 2 * c.n then c.geo.WayIndex(i.rp[k].adr, i.rp[k].tag.way)
      else if k < 3 * c.n then c.geo.WayIndex(i.wp[k - 2 * c.n].adr, wp[k - 2 * c.n].tagOut.way)
      else c.geo.WayIndex(b.adr, b.tag.way))
  }

  lemma LinesAreRequests(c: Config, s: State, i: Inputs, rp: seq<RpOut>, wp: seq<WpSignals>, g: seq<WpGnt>)
    requires SignalsOf(c, s, i, rp, wp, g)
    ensures TagrLines(c.n, rp, wp, s.bus) == TagrReqs(c, s, i)
    ensures TagwLines(c.n, wp, s.bus) == TagwReqs(c, s, i)
    ensures BusifLines(c.n, rp, wp) == BusifReqs(c, s, i)
  {
    hide ReqTagr, ReqTagw, ReqBusif, RReqTagr, RReqBusif, BReqTagr, BReqTagw, WcondOk, Ack, RAck;
  }

  lemma BankLinesAreRequests(c: Config, s: State, i: Inputs, rp: seq<RpOut>, wp: seq<WpSignals>, g: seq<WpGnt>, b: nat)
    requires SignalsOf(c, s, i, rp, wp, g)
    ensures BankLines(c, i, rp, wp, s.bus, b) == BankReqs(c, s, i, b)
    ensures WayLines(c, i, wp, s.bus) == WayIndices(c, s, i)
  {
    hide ReqBank, RReqBank, BReqBank, WcondOk, Ack, RAck, TagOut, Geometry.Bank, Geometry.WayIndex;
  }

  lemma LinelockLinesAreRequests(c: Config, s: State, i: Inputs, wp: seq<WpSignals>, g: seq<WpGnt>, banks: seq<Lines>)
    requires Legal(c, s, i) && BanksSized(c, banks) && |wp| == |g| == c.n
    requires forall p | 0 <= p < c.n :: wp[p].out == Outputs(s.wp[p], i.wp[p], g[p])
    requires forall p | 0 <= p < c.n :: g[p].bank == banks[c.geo.Bank(i.wp[p].adr)][2 * c.n + p]
    ensures LinelockLines(c.n, wp, s.bus) == LinelockReqs(c, s, i, banks)
  {
    hide ReqLinelock, BReqLinelock, WcondOk, Ack, RAck, TagOut, Geometry.Bank;
  }

  // The bank grants as the write ports see them, the others still missing.
  function BankGntLines(c: Config, i: Inputs, banks: seq<Lines>): (g: seq<WpGnt>)
    requires c.geo.banks > 0 && |i.wp| == c.n && |banks| == c.geo.banks
      && forall b | 0 <= b < |banks| :: |banks[b]| == 3 * c.n + 1
    ensures |g| == c.n
  {
    seq(c.n, p requires 0 <= p < c.n =>
      WpGnt(false, false, false, banks[c.geo.Bank(i.wp[p].adr)][2 * c.n + p], false))
  }

  function IndexLines(c: Config, i: Inputs, b: BusRegs): (ix: Indices)
    requires c.geo.banks > 0 && c.geo.sets > 0 && |i.wp| == c.n
    ensures |ix.wp| == c.n
  {
    Indices(seq(c.n, p requires 0 <= p < c.n => c.geo.Index(i.wp[p].adr)), c.geo.Index(b.adr))
  }

  // The grants are those of the arbiter's line lock, and go to one write port at most.
  lemma OneLockOwner(c: Config, s: State, i: Inputs)
    requires Legal(c, s, i) && Inv(c, s)
    ensures var g := GrantsOf(c, s, i);
      && g.linelock == LineLockGrants(s.linelock, LinelockReqs(c, s, i, g.banks), WorkIndices(c, s, i), i.prio)
      && forall p, q | 0 <= p < q < c.n :: !(g.linelock[p] && g.linelock[q])
    ensures IndexLines(c, i, s.bus) == WorkIndices(c, s, i)
  {
    hide Geometry.Index, Inv, LineLockGrants, TagReadGrants, TagWriteGrants, BankGrants, BusIfGrants, LinelockReqs;
    hide TagrReqs, TagwReqs;
    hide BusifReqs, BankReqs, WayIndices, TagGranted, BusifGranted, MemuBanks.BanksGranted, GrantsKept;
    GrantsGranted(c, s, i);
  }

  // The grants as the ports and the bus interface see them.
  function WpGntLines(c: Config, i: Inputs, g: Grants): (r: seq<WpGnt>)
    requires c.geo.banks > 0 && |i.wp| == c.n && |g.linelock| == |g.tagw| == c.n + 1 && |g.tagr| == 3 * c.n + 1
    requires |g.busif| == 3 * c.n && |g.banks| == c.geo.banks
      && forall b | 0 <= b < |g.banks| :: |g.banks[b]| == 3 * c.n + 1
    ensures |r| == c.n
  {
    seq(c.n, p requires 0 <= p < c.n =>
      WpGnt(g.linelock[p], g.tagr[2 * c.n + p], g.tagw[p], g.banks[c.geo.Bank(i.wp[p].adr)][2 * c.n + p],
        g.busif[2 * c.n + p]))
  }

  function RpGntLines(c: Config, i: Inputs, g: Grants): (r: seq<RpGnt>)
    requires c.geo.banks > 0 && |i.rp| == 2 * c.n && |g.tagr| == 3 * c.n + 1
    requires |g.busif| == 3 * c.n && |g.banks| == c.geo.banks
      && forall b | 0 <= b < |g.banks| :: |g.banks[b]| == 3 * c.n + 1
    ensures |r| == 2 * c.n
  {
    seq(2 * c.n, p requires 0 <= p < 2 * c.n => RpGnt(g.tagr[p], g.banks[c.geo.Bank(i.rp[p].adr)][p], g.busif[p]))
  }

  lemma GntLinesAreGrants(c: Config, i: Inputs, g: Grants)
    requires c.Valid() && GrantsSized(c, g) && |i.wp| == c.n && |i.rp| == 2 * c.n
    ensures forall p | 0 <= p < c.n :: WpGntLines(c, i, g)[p] == WpGrants(c, i, g, p)
    ensures forall p | 0 <= p < 2 * c.n :: RpGntLines(c, i, g)[p] == RpGrants(c, i, g, p)
  {}

  // The registers of write port 'p' after the clock edge, with the strobe and address that it is told.
  lemma SnoopTold(c: Config, s: State, i: Inputs, g: Grants, p: nat, stb: bool, adr: Adr)
    requires Legal(c, s, i) && GrantsSized(c, g) && p < c.n
    requires var w := LockOwner(c, g.linelock); (stb <==> w >= 0 && w != p) && (w >= 0 ==> adr == i.wp[w].adr)
    ensures NextRegs(s.wp[p], i.wp[p], WpGrants(c, i, g, p), stb, adr) == NextWp(c, s, i, g, p)
  {
    hide NextState, Links, LockOwner, WpGrants;
  }

  // A state with these parts is the one after the cycle.
  lemma AdvanceIs(c: Config, s: State, i: Inputs, g: Grants, t: State)
    requires Legal(c, s, i) && GrantsSized(c, g) && |t.wp| == |t.pending| == c.n && |t.rp| == 2 * c.n
    requires t.linelock == g.linelock && t.tagr == g.tagr && t.tagw == g.tagw && t.busif == g.busif
      && t.banks == g.banks
    requires t.tagReady && t.lastIn == i.wp && t.lastWiadr == WayIndices(c, s, i)
    requires t.bus == BusNext(s.bus, c.geo, Offered(c, s, i, g.busif), BusGrants(c, g))
    requires forall p | 0 <= p < c.n :: t.wp[p] == NextWp(c, s, i, g, p)
    requires forall p | 0 <= p < 2 * c.n :: t.rp[p] == RNextState(s.rp[p], i.rp[p], RpGrants(c, i, g, p))
    requires forall p | 0 <= p < c.n ::
      t.pending[p] == (HasRequest(i.wp[p]) && !Ack(s.wp[p], i.wp[p], WpGrants(c, i, g, p)))
    ensures t == Advance(c, s, i, g)
  {
    hide NextWp, RNextState, RpGrants, WpGrants, Ack, HasRequest, BusNext, Offered, BusGrants, WayIndices;
    var u := Advance(c, s, i, g);
    assert t.wp == u.wp && t.rp == u.rp && t.pending == u.pending;
  }

  lemma StepInv(c: Config, s: State, i: Inputs)
    requires Inv(c, s) && Legal(c, s, i)
    ensures Inv(c, Step(c, s, i))
  {
    hide Inv, Granted, GrantsOf, Advances, Advance;
    GrantsGranted(c, s, i);
    AdvanceAdvances(c, s, i, GrantsOf(c, s, i));
    AdvanceInv(c, s, i, GrantsOf(c, s, i), Step(c, s, i));
  }

  class MMemu {
    const c: Config
    const arbiter: MArbiter
    const wports: seq<MWritePort>
    const rports: seq<MReadPort>
    var busif: BusRegs                 // registers of the bus interface
    var tagReady: bool                 // driven by the tag RAM
    // Inputs and state of the cycle before, which the rule for the CPUs speaks of
    ghost var lastIn: seq<WpIn>
    ghost var lastWiadr: seq<nat>
    ghost var pending: Lines

    ghost predicate Wired()
      reads this, arbiter
    {
      && c.Valid() && arbiter.Valid() && arbiter.n == c.n && arbiter.banks == c.geo.banks
      && |wports| == c.n && |rports| == 2 * c.n
      && (forall p, q | 0 <= p < q < |wports| :: wports[p] != wports[q])
      && (forall p, q | 0 <= p < q < |rports| :: rports[p] != rports[q])
    }

    ghost function Wps(): (r: seq<WpRegs>)
      reads wports
      ensures |r| == |wports| && forall p | 0 <= p < |r| :: r[p] == wports[p].Regs()
    {
      seq(|wports|, p requires 0 <= p < |wports| reads wports => wports[p].Regs())
    }

    ghost function Rps(): (r: seq<RpState>)
      reads rports
      ensures |r| == |rports| && forall p | 0 <= p < |r| :: r[p] == rports[p].stateReg
    {
      seq(|rports|, p requires 0 <= p < |rports| reads rports => rports[p].stateReg)
    }

    ghost function Now(): State
      reads this, arbiter, wports, rports
    {
      State(arbiter.linelockReg, arbiter.tagrReg, arbiter.tagwReg, arbiter.busifReg, arbiter.bankReg, tagReady,
            Wps(), Rps(), busif, lastIn, lastWiadr, pending)
    }

    static method NewWritePorts(n: nat) returns (ws: seq<MWritePort>)
      ensures |ws| == n && forall p, q | 0 <= p < q < n :: ws[p] != ws[q]
      ensures forall p | 0 <= p < n :: fresh(ws[p]) && ws[p].Regs().state == Init && !ws[p].Regs().linkValid
    {
      ws := [];
      for p := 0 to n
        invariant |ws| == p && forall q, r | 0 <= q < r < p :: ws[q] != ws[r]
        invariant forall q | 0 <= q < p :: fresh(ws[q]) && ws[q].Regs().state == Init && !ws[q].Regs().linkValid
      {
        var w := new MWritePort();
        ws := ws + [w];
      }
    }

    static method NewReadPorts(n: nat) returns (rs: seq<MReadPort>)
      ensures |rs| == n && forall p, q | 0 <= p < q < n :: rs[p] != rs[q]
      ensures forall p | 0 <= p < n :: fresh(rs[p]) && rs[p].stateReg == RInit
    {
      rs := [];
      for p := 0 to n
        invariant |rs| == p && forall q, r | 0 <= q < r < p :: rs[q] != rs[r]
        invariant forall q | 0 <= q < p :: fresh(rs[q]) && rs[q].stateReg == RInit
      {
        var r := new MReadPort();
        rs := rs + [r];
      }
    }

    // Reset.
    constructor (c: Config, slot: nat)
      requires c.Valid() && slot > 0
      ensures this.c == c && Wired() && Initial(c, Now()) && arbiter.slot == slot
      ensures fresh(arbiter) && (forall p | 0 <= p < |wports| :: fresh(wports[p]))
        && forall p | 0 <= p < |rports| :: fresh(rports[p])
    {
      this.c := c;
      arbiter := new MArbiter(c.n, c.geo.banks, slot);
      busif, tagReady := RESET, false;
      var ws := NewWritePorts(c.n);
      var rs := NewReadPorts(2 * c.n);
      wports, rports := ws, rs;
      lastIn := seq(c.n, _ => NO_REQUEST);
      lastWiadr := seq(3 * c.n + 1, _ => 0);
      pending := AllOff(c.n);
    }

    // ---------- The ports, evaluated one after the other ----------

    method ReadPortSignals(i: seq<RpIn>) returns (v: seq<RpOut>)
      requires |i| == |rports| && c.Valid()
      ensures |v| == |rports| && forall p | 0 <= p < |rports| :: v[p] == ROutputs(rports[p].stateReg, i[p], NO_RP_GNT)
    {
      hide ROutputs;
      v := [];
      for p := 0 to |rports|
        invariant |v| == p && forall q | 0 <= q < p :: v[q] == ROutputs(rports[q].stateReg, i[q], NO_RP_GNT)
      {
        var out, data, wayOut, nextState, nextBankSel := rports[p].MainMethod(i[p], NO_RP_GNT, c.geo.Bank(i[p].adr));
        v := v + [out];
      }
    }

    method WritePortSignals(i: seq<WpIn>, g: seq<WpGnt>) returns (v: seq<WpSignals>)
      requires |i| == |g| == |wports|
      ensures |v| == |wports| && forall p | 0 <= p < |wports| :: wports[p].Computed(v[p], i[p], g[p])
    {
      hide MWritePort.Computed;
      v := [];
      for p := 0 to |wports|
        invariant |v| == p && forall q | 0 <= q < p :: wports[q].Computed(v[q], i[q], g[q])
      {
        var u := wports[p].MainMethod(i[p], g[p]);
        v := v + [u];
      }
    }

    // The clock edge of all write ports.
    method ClockWritePorts(i: seq<WpIn>, g: seq<WpGnt>, stb: Lines, adr: Adr) returns (v: seq<WpSignals>)
      requires |i| == |g| == |stb| == |wports| && forall p, q | 0 <= p < q < |wports| :: wports[p] != wports[q]
      modifies wports
      ensures |v| == |wports|
      ensures forall p | 0 <= p < |wports| ::
        wports[p].Regs() == NextRegs(old(wports[p].Regs()), i[p], g[p], stb[p], adr)
      ensures forall p | 0 <= p < |wports| :: v[p].out.ack == Ack(old(wports[p].Regs()), i[p], g[p])
    {
      hide NextRegs, Ack;
      v := [];
      for p := 0 to |wports|
        invariant |v| == p
        invariant forall q | 0 <= q < p ::
          wports[q].Regs() == NextRegs(old(wports[q].Regs()), i[q], g[q], stb[q], adr)
        invariant forall q | 0 <= q < p :: v[q].out.ack == Ack(old(wports[q].Regs()), i[q], g[q])
        invariant forall q | p <= q < |wports| :: wports[q].Regs() == old(wports[q].Regs())
      {
        var u := wports[p].Clock(i[p], g[p], stb[p], adr);
        v := v + [u];
      }
    }

    method ClockReadPorts(i: seq<RpIn>, g: seq<RpGnt>) returns (v: seq<RpOut>)
      requires |i| == |g| == |rports| && forall p, q | 0 <= p < q < |rports| :: rports[p] != rports[q]
      requires c.Valid()
      modifies rports
      ensures |v| == |rports|
      ensures forall p | 0 <= p < |rports| :: rports[p].stateReg == RNextState(old(rports[p].stateReg), i[p], g[p])
      ensures forall p | 0 <= p < |rports| :: v[p].ack == RAck(old(rports[p].stateReg), i[p], g[p])
    {
      hide RNextState, RAck;
      v := [];
      for p := 0 to |rports|
        invariant |v| == p
        invariant forall q | 0 <= q < p :: rports[q].stateReg == RNextState(old(rports[q].stateReg), i[q], g[q])
        invariant forall q | 0 <= q < p :: v[q].ack == RAck(old(rports[q].stateReg), i[q], g[q])
        invariant forall q | p <= q < |rports| :: rports[q].stateReg == old(rports[q].stateReg)
      {
        var out, data, wayOut := rports[p].Clock(i[p], g[p], c.geo.Bank(i[p].adr));
        v := v + [out];
      }
    }

    // ---------- One cycle ----------

    // The first evaluation of all ports, which gives all requests but those for the line lock.
    method Request(i: Inputs) returns (rp: seq<RpOut>, wp: seq<WpSignals>, ghost g: seq<WpGnt>)
      requires Wired() && Legal(c, Now(), i)
      ensures SignalsOf(c, Now(), i, rp, wp, g)
    {
      hide ROutputs, Outputs;
      rp := ReadPortSignals(i.rp);
      g := seq(c.n, _ => NO_WP_GNT);
      wp := WritePortSignals(i.wp, seq(c.n, _ => NO_WP_GNT));
    }

    // The request lines and way addresses.
    method Collect(i: Inputs, rp: seq<RpOut>, wp: seq<WpSignals>, ghost g: seq<WpGnt>)
      returns (tagr: Lines, tagw: Lines, busifReq: Lines, banks: seq<Lines>, wiadr: seq<nat>)
      requires Wired() && Legal(c, Now(), i) && SignalsOf(c, Now(), i, rp, wp, g)
      ensures tagr == TagrReqs(c, Now(), i) && tagw == TagwReqs(c, Now(), i) && busifReq == BusifReqs(c, Now(), i)
      ensures |banks| == c.geo.banks && forall b | 0 <= b < c.geo.banks :: banks[b] == BankReqs(c, Now(), i, b)
      ensures wiadr == WayIndices(c, Now(), i)
    {
      ghost var s := Now();
      var u := busif;
      hide TagrReqs, TagwReqs, BusifReqs, BankReqs, WayIndices, ROutputs, Outputs, SameRequest, TagOut;
      hide TagrLines, TagwLines, BusifLines, BankLines, WayLines;
      tagr, tagw, busifReq := TagrLines(c.n, rp, wp, u), TagwLines(c.n, wp, u), BusifLines(c.n, rp, wp);
      banks := seq(c.geo.banks, b requires 0 <= b < c.geo.banks => BankLines(c, i, rp, wp, u, b));
      wiadr := WayLines(c, i, wp, u);
      LinesAreRequests(c, s, i, rp, wp, g);
      forall b | 0 <= b < c.geo.banks
        ensures BankLines(c, i, rp, wp, s.bus, b) == BankReqs(c, s, i, b)
      {
        BankLinesAreRequests(c, s, i, rp, wp, g, b);
      }
      BankLinesAreRequests(c, s, i, rp, wp, g, 0);
    }

    // The arbiter decides on tags, banks and bus interface.
    method Arbitrate(i: Inputs, rp: seq<RpOut>, wp: seq<WpSignals>, ghost g: seq<WpGnt>)
      requires Wired() && Legal(c, Now(), i) && SignalsOf(c, Now(), i, rp, wp, g) && i.prio == arbiter.GetPrioCpu()
      modifies arbiter`nextTagrReg, arbiter`nextTagwReg, arbiter`nextBankReg, arbiter`nextBusifReg, arbiter`wiadrBank
      ensures Wired() && Now() == old(Now()) && i.prio == arbiter.GetPrioCpu()
      ensures var h := GrantsOf(c, old(Now()), i);
        && arbiter.nextTagrReg == h.tagr && arbiter.nextTagwReg == h.tagw
        && arbiter.nextBusifReg == h.busif && arbiter.nextBankReg == h.banks
    {
      hide SignalsOf, TagReadGrants, TagWriteGrants, BankGrants, BusIfGrants, LineLockGrants, TagrReqs, TagwReqs;
      hide BusifReqs, BankReqs;
      hide WayIndices, LinelockReqs, WorkIndices, SameRequest, MArbiter.AddressesDriven;
      var tagr, tagw, busifReq, banks, wiadr := Collect(i, rp, wp, g);
      arbiter.TagMethod(tagReady, tagr, tagw);
      arbiter.BankMethod(banks, wiadr);
      arbiter.BusIfMethod(busifReq);
    }

    // The second evaluation of the write ports gives the line lock requests.
    method LockRequests(i: Inputs) returns (req: Lines)
      requires Wired() && Legal(c, Now(), i) && arbiter.nextBankReg == GrantsOf(c, Now(), i).banks
      ensures req == LinelockReqs(c, Now(), i, GrantsOf(c, Now(), i).banks)
    {
      ghost var s := Now();
      hide Outputs, GrantsOf, LinelockReqs, LinelockLines;
      var g := BankGntLines(c, i, arbiter.nextBankReg);
      var wp := WritePortSignals(i.wp, g);
      LinelockLinesAreRequests(c, s, i, wp, g, arbiter.nextBankReg);
      req := LinelockLines(c.n, wp, busif);
    }

    // The ports are told the address of the port that has the line lock.
    method Snoop(i: Inputs)
      requires Wired() && |i.wp| == c.n
      requires forall p, q | 0 <= p < q < c.n :: !(arbiter.nextLinelockReg[p] && arbiter.nextLinelockReg[q])
      modifies arbiter`snoopAdr, arbiter`snoopStb
      ensures Wired() && Snooped(i, arbiter.nextLinelockReg)
    {
      ghost var w := LockOwner(c, arbiter.nextLinelockReg);
      assert w >= 0 ==> arbiter.nextLinelockReg[w];
      assert forall p | w < p < c.n :: !arbiter.nextLinelockReg[p];
      hide LockOwner;
      var adr := seq(c.n, p requires 0 <= p < c.n => i.wp[p].adr);
      arbiter.SnoopMethod(adr);
      if w < 0 {
        assert NoneSet(arbiter.nextLinelockReg[..c.n]);
      } else {
        assert arbiter.nextLinelockReg[w] && adr[w] == i.wp[w].adr && !arbiter.snoopStb[w];
      }
    }

    // The line lock is granted.
    method Lock(i: Inputs)
      requires Wired() && Legal(c, Now(), i) && Inv(c, Now()) && i.prio == arbiter.GetPrioCpu()
      requires arbiter.nextBankReg == GrantsOf(c, Now(), i).banks
      modifies arbiter`nextLinelockReg, arbiter`snoopAdr, arbiter`snoopStb
      ensures Wired() && Now() == old(Now())
      ensures arbiter.nextLinelockReg == GrantsOf(c, old(Now()), i).linelock
      ensures Snooped(i, arbiter.nextLinelockReg)
    {
      hide GrantsOf, LinelockReqs, IndexLines, WorkIndices, Inv, SameRequest, Snooped, LineLockGrants;
      var req := LockRequests(i);
      OneLockOwner(c, Now(), i);
      arbiter.LineLockMethod(req, IndexLines(c, i, busif));
      Snoop(i);
    }

    ghost predicate Snooped(i: Inputs, linelock: Lines)
      reads arbiter
      requires |linelock| == c.n + 1 && |i.wp| == c.n
    {
      var w := LockOwner(c, linelock);
      && |arbiter.snoopStb| == c.n
      && (w >= 0 ==> arbiter.snoopAdr == i.wp[w].adr)
      && forall p | 0 <= p < c.n :: arbiter.snoopStb[p] <==> w >= 0 && w != p
    }

    // The bus interface sees the operation of the port that owns it.
    method Offer(i: Inputs, rp: seq<RpOut>, wp: seq<WpSignals>, busifGnt: Lines, ghost g: seq<WpGnt>) returns (o: BusIn)
      requires Wired() && Legal(c, Now(), i) && SignalsOf(c, Now(), i, rp, wp, g) && |busifGnt| == 3 * c.n
      ensures o == Offered(c, Now(), i, busifGnt)
    {
      ghost var s := Now();
      hide RBusifOp, BusifOp, ReqLinelock, ReqBank, ReqTagr, ReqTagw, ReqBusif, RReqBank, RReqTagr, RReqBusif, Ack;
      hide RAck;
      o := BusIn(Nothing, false, 0, i.busAck, i.busTag);
      var w := 3 * c.n - 1;
      while w >= 0 && !busifGnt[w]
        invariant -1 <= w < 3 * c.n && forall k | w < k < 3 * c.n :: !busifGnt[k]
      {
        w := w - 1;
      }
      assert LastSet(busifGnt, 3 * c.n) == w;
      hide LastSet;
      if w >= 2 * c.n {
        o := BusIn(wp[w - 2 * c.n].out.busifOp, true, i.wp[w - 2 * c.n].adr, i.busAck, i.busTag);
      } else if w >= 0 {
        o := BusIn(rp[w].busifOp, false, i.rp[w].adr, i.busAck, i.busTag);
      }
    }

    // The clock edge of the ports.
    method PortsEdge(i: Inputs, h: Grants) returns (rp: seq<RpOut>, wp: seq<WpSignals>)
      requires Wired() && Legal(c, Now(), i) && GrantsSized(c, h) && Snooped(i, h.linelock)
      modifies wports, rports
      ensures |rp| == 2 * c.n && |wp| == c.n && Wired()
      ensures forall p | 0 <= p < c.n :: wports[p].Regs() == NextWp(c, old(Now()), i, h, p)
      ensures forall p | 0 <= p < 2 * c.n ::
        rports[p].stateReg == RNextState(old(Now()).rp[p], i.rp[p], RpGrants(c, i, h, p))
      ensures forall p | 0 <= p < c.n :: wp[p].out.ack == Ack(old(Now()).wp[p], i.wp[p], WpGrants(c, i, h, p))
      ensures forall p | 0 <= p < 2 * c.n :: rp[p].ack == RAck(old(Now()).rp[p], i.rp[p], RpGrants(c, i, h, p))
    {
      ghost var s := Now();
      hide NextRegs, NextWp, RNextState, Ack, RAck, LockOwner, SameRequest, WpGrants, RpGrants, WpGntLines, RpGntLines;
      GntLinesAreGrants(c, i, h);
      wp := ClockWritePorts(i.wp, WpGntLines(c, i, h), arbiter.snoopStb, arbiter.snoopAdr);
      rp := ClockReadPorts(i.rp, RpGntLines(c, i, h));
      forall p | 0 <= p < c.n
        ensures wports[p].Regs() == NextWp(c, s, i, h, p)
      {
        SnoopTold(c, s, i, h, p, arbiter.snoopStb[p], arbiter.snoopAdr);
      }
    }

    // The clock edge of the bus interface and the arbiter, 's' being the state before.
    method OwnEdge(i: Inputs, o: BusIn, h: Grants, ghost s: State)
      requires Wired() && Legal(c, s, i) && GrantsSized(c, h) && Arbitrated(h) && busif == s.bus
      requires o == Offered(c, s, i, h.busif)
      modifies this, arbiter
      ensures Wired() && tagReady && lastIn == i.wp && lastWiadr == WayIndices(c, s, i)
      ensures arbiter.linelockReg == h.linelock && arbiter.tagrReg == h.tagr && arbiter.tagwReg == h.tagw
      ensures arbiter.busifReg == h.busif && arbiter.bankReg == h.banks
      ensures busif == BusNext(s.bus, c.geo, Offered(c, s, i, h.busif), BusGrants(c, h))
      ensures |pending| == c.n && forall p | 0 <= p < c.n ::
        pending[p] == (HasRequest(i.wp[p]) && !Ack(s.wp[p], i.wp[p], WpGrants(c, i, h, p)))
    {
      hide Offered, BusNext, Ack, HasRequest, WayIndices, SameRequest, WpGrants, BusGrants;
      busif := BusNext(busif, c.geo, o, BusGrants(c, h));
      arbiter.TransitionThread();
      tagReady := true;
      lastIn, lastWiadr := i.wp, WayIndices(c, s, i);
      pending := seq(c.n, p requires 0 <= p < c.n =>
        HasRequest(i.wp[p]) && !Ack(s.wp[p], i.wp[p], WpGrants(c, i, h, p)));
    }

    // The clock edge of the whole unit.
    method Edge(i: Inputs, o: BusIn) returns (rp: seq<RpOut>, wp: seq<WpSignals>)
      requires Wired() && Legal(c, Now(), i) && Arbitrated(GrantsOf(c, Now(), i)) && Snooped(i, arbiter.nextLinelockReg)
      requires o == Offered(c, Now(), i, arbiter.nextBusifReg)
      modifies this, arbiter, wports, rports
      ensures Wired() && Now() == Step(c, old(Now()), i) && Acknowledged(old(Now()), i, rp, wp)
    {
      hide GrantsOf, Offered, BusNext, NextWp, RNextState, Ack, RAck, HasRequest, WayIndices, SameRequest, Snooped;
      hide WpGrants, RpGrants, BusGrants, Advance;
      ghost var s := Now();
      var h := Grants(arbiter.nextLinelockReg, arbiter.nextTagrReg, arbiter.nextTagwReg, arbiter.nextBusifReg,
        arbiter.nextBankReg);
      assert h == GrantsOf(c, s, i);
      rp, wp := PortsEdge(i, h);
      OwnEdge(i, o, h, s);
      AdvanceIs(c, s, i, h, Now());
    }

    // The acknowledges that the CPUs see are those of the protocol.
    ghost predicate Acknowledged(s: State, i: Inputs, rp: seq<RpOut>, wp: seq<WpSignals>)
      requires Legal(c, s, i)
    {
      && |rp| == 2 * c.n && |wp| == c.n
      && (forall p | 0 <= p < c.n :: wp[p].out.ack == Ack(s.wp[p], i.wp[p], WpGrants(c, i, GrantsOf(c, s, i), p)))
      && (forall p | 0 <= p < 2 * c.n :: rp[p].ack == RAck(s.rp[p], i.rp[p], RpGrants(c, i, GrantsOf(c, s, i), p)))
    }

    // The arbiter has computed the grants 'g'.
    ghost predicate Arbitrated(g: Grants)
      reads arbiter
    {
      && arbiter.nextLinelockReg == g.linelock && arbiter.nextTagrReg == g.tagr && arbiter.nextTagwReg == g.tagw
      && arbiter.nextBusifReg == g.busif && arbiter.nextBankReg == g.banks
    }

    // One clock cycle of the unit is one step of the protocol. The invariant, under which the snoop unit's assertion
    // holds, holds again.
    method Clock(i: Inputs) returns (rp: seq<RpOut>, wp: seq<WpSignals>)
      requires Wired() && Legal(c, Now(), i) && Inv(c, Now()) && i.prio == arbiter.GetPrioCpu()
      modifies this, arbiter, wports, rports
      ensures Wired() && Now() == Step(c, old(Now()), i) && Acknowledged(old(Now()), i, rp, wp) && Inv(c, Now())
    {
      hide Acknowledged, GrantsOf, SignalsOf, Snooped, Offered, Step, Inv, SameRequest;
      StepInv(c, Now(), i);
      ghost var g;
      rp, wp, g := Request(i);
      Arbitrate(i, rp, wp, g);
      Lock(i);
      var o := Offer(i, rp, wp, arbiter.nextBusifReg, g);
      rp, wp := Edge(i, o);
    }
  }
}
