// A run of the memory unit in which a word is read from the cache and then, uncached, at the same address: the second
// read is answered by the replacement that the first one has started.

module MemuMixed {
  import opened Words
  import opened Address
  import opened ArbiterSpec
  import opened BankArbiter
  import opened WritePortSpec
  import opened ReadPortSpec
  import opened BusIfSpec
  import opened MemuSpec
  import opened MemuProofs
  import opened MemuSafety
  import opened MemuRuns

  // Read port 0 is in state 'q' and the bus interface in state 'b', which asks for no bank; all other ports are idle.
  ghost predicate Lone(c: Config, s: State, q: RpState, b: BusRegs) {
    && c.Valid() && Sized(c, s) && s.rp[0] == q && s.bus == b && !b.pc.VictimRead? && !b.pc.Fill?
    && (forall p | 0 <= p < c.n :: s.wp[p].state == Init && !s.pending[p])
    && (forall p | 1 <= p < 2 * c.n :: s.rp[p] == RInit)
  }

  // Read port 0 gets the inputs 'r', no other port has a request.
  function LoneInputs(c: Config, r: RpIn, b: BusRegs, ack: bool): (i: Inputs)
    ensures |i.wp| == c.n && |i.rp| == 2 * c.n
  {
    Inputs(0, seq(c.n, _ => NO_REQUEST.(busy := b.busy)),
      seq(2 * c.n, k => if k == 0 then r else
        RpIn(false, false, 0, BusHit(b, 0), NO_TAG, ZERO_WORD, ZERO_WORD, b.busy)), ack, NO_TAG)
  }

  // The port finds no valid tag, and does not ask for tags together with the bus interface.
  ghost predicate LoneIn(c: Config, s: State, q: RpState, b: BusRegs, r: RpIn) {
    && Lone(c, s, q, b) && r.busy == b.busy && r.busifHit == BusHit(b, r.adr) && !r.tag.valid
    && !(RReqTagr(q, r) && (BReqTagr(b) || BReqTagw(b)))
  }

  function LoneGnt(q: RpState, r: RpIn, ready: bool): RpGnt {
    RpGnt(ready && RReqTagr(q, r), false, RReqBusif(q, r))
  }

  function LoneBusGnt(b: BusRegs, banks: nat, ready: bool): BusGnt {
    BusGnt(BReqLinelock(b), ready && BReqTagr(b), ready && BReqTagw(b), AllOff(banks))
  }

  function LoneOffer(q: RpState, r: RpIn, ack: bool): BusIn {
    if RReqBusif(q, r) then BusIn(RBusifOp(q, r), false, r.adr, ack, NO_TAG) else BusIn(Nothing, false, 0, ack, NO_TAG)
  }

  lemma LoneLegal(c: Config, s: State, q: RpState, b: BusRegs, r: RpIn, ack: bool)
    requires LoneIn(c, s, q, b, r)
    ensures Legal(c, s, LoneInputs(c, r, b, ack))
  {
    hide RReqTagr, BReqTagr, BReqTagw, BusHit;
  }

  lemma NoBankAsked(c: Config, s: State, q: RpState, b: BusRegs, r: RpIn, ack: bool, bank: nat)
    requires LoneIn(c, s, q, b, r) && Legal(c, s, LoneInputs(c, r, b, ack)) && bank < c.geo.banks
    ensures BankGrants(s.banks[bank], BankReqs(c, s, LoneInputs(c, r, b, ack), bank),
      WayIndices(c, s, LoneInputs(c, r, b, ack)), c.n, 0) == AllOff(3 * c.n + 1)
  {
    var i := LoneInputs(c, r, b, ack);
    var req := BankReqs(c, s, i, bank);
    hide BankGrants, WayIndices, ReqBank, RReqBank, BReqBank, RReqTagr, BReqTagr, BReqTagw, BusHit, Geometry.Bank;
    NoBusBank(b, bank);
    NoReaderBank(q, r);
    forall j | 0 <= j <= 3 * c.n
      ensures !req[j]
    {
      if 0 < j < 2 * c.n {
        QuietReader(i.rp[j]);
      } else if 2 * c.n <= j < 3 * c.n {
        QuietPort(s.wp[j - 2 * c.n], i.wp[j - 2 * c.n], false);
      }
    }
    hide BankReqs, LoneIn;
    SoleBankUser(s.banks[bank], req, WayIndices(c, s, i), c.n, 0, 0);
  }

  lemma NoReaderBank(q: RpState, r: RpIn)
    requires !r.tag.valid
    ensures !RReqBank(q, r)
  {}

  // Nobody but the port and the bus interface asks for anything.
  lemma LoneAsks(c: Config, s: State, q: RpState, b: BusRegs, r: RpIn, ack: bool, j: nat)
    requires LoneIn(c, s, q, b, r) && Legal(c, s, LoneInputs(c, r, b, ack)) && 0 < j < 3 * c.n
    ensures var i := LoneInputs(c, r, b, ack);
      !TagrReqs(c, s, i)[j] && !BusifReqs(c, s, i)[j] && (j < c.n ==> !TagwReqs(c, s, i)[j])
  {
    var i := LoneInputs(c, r, b, ack);
    hide ReqTagr, RReqTagr, ReqTagw, ReqBusif, RReqBusif, BReqTagr, BReqTagw, BusHit;
    if j < 2 * c.n {
      QuietReader(i.rp[j]);
    } else {
      QuietPort(s.wp[j - 2 * c.n], i.wp[j - 2 * c.n], false);
    }
    if j < c.n {
      QuietPort(s.wp[j], i.wp[j], false);
    }
  }

  lemma LoneAsks0(c: Config, s: State, q: RpState, b: BusRegs, r: RpIn, ack: bool)
    requires LoneIn(c, s, q, b, r) && Legal(c, s, LoneInputs(c, r, b, ack))
    ensures var i := LoneInputs(c, r, b, ack);
      && TagrReqs(c, s, i)[0] == RReqTagr(q, r) && TagrReqs(c, s, i)[3 * c.n] == BReqTagr(b)
      && BusifReqs(c, s, i)[0] == RReqBusif(q, r)
      && !TagwReqs(c, s, i)[0] && TagwReqs(c, s, i)[c.n] == BReqTagw(b)
  {
    var i := LoneInputs(c, r, b, ack);
    hide ReqTagr, RReqTagr, ReqTagw, ReqBusif, RReqBusif, BReqTagr, BReqTagw, BusHit;
    QuietPort(s.wp[0], i.wp[0], false);
  }

  lemma LoneTags(c: Config, s: State, q: RpState, b: BusRegs, r: RpIn, ack: bool)
    requires LoneIn(c, s, q, b, r) && Legal(c, s, LoneInputs(c, r, b, ack))
    ensures var i := LoneInputs(c, r, b, ack); var reqR, reqW := TagrReqs(c, s, i), TagwReqs(c, s, i);
      && TagReadGrants(s.tagr, reqR, reqW, c.n) == reqR
      && TagWriteGrants(s.tagw, reqW, reqR, c.n, 0) == reqW
      && reqR[0] == RReqTagr(q, r) && reqR[3 * c.n] == BReqTagr(b) && reqW[c.n] == BReqTagw(b)
  {
    var i := LoneInputs(c, r, b, ack);
    var reqR, reqW := TagrReqs(c, s, i), TagwReqs(c, s, i);
    var k := if BReqTagr(b) then 3 * c.n else 0;
    LoneAsks0(c, s, q, b, r, ack);
    forall j | 0 < j < 3 * c.n
      ensures !reqR[j] && (j < c.n ==> !reqW[j])
    {
      LoneAsks(c, s, q, b, r, ack, j);
    }
    OneTagRequest(s.wp[0], i.wp[0], b);
    hide BReqTagr, BReqTagw, RReqTagr, TagReadGrants, TagWriteGrants, TagrReqs, TagwReqs, BusHit, Lone;
    SoleTagReader(s.tagr, reqR, reqW, c.n, k);
    SoleTagWriter(s.tagw, reqW, reqR, c.n, 0, c.n);
  }

  lemma LoneBusif(c: Config, s: State, q: RpState, b: BusRegs, r: RpIn, ack: bool)
    requires LoneIn(c, s, q, b, r) && Legal(c, s, LoneInputs(c, r, b, ack))
    ensures var req := BusifReqs(c, s, LoneInputs(c, r, b, ack));
      BusIfGrants(s.busif, req, c.n, 0) == req && OnlyLine(req, 0) && req[0] == RReqBusif(q, r)
  {
    var req := BusifReqs(c, s, LoneInputs(c, r, b, ack));
    LoneAsks0(c, s, q, b, r, ack);
    forall j | 0 < j < 3 * c.n
      ensures !req[j]
    {
      LoneAsks(c, s, q, b, r, ack, j);
    }
    hide BusIfGrants, BusifReqs, LoneIn, RReqBusif;
    SoleBusifUser(s.busif, req, c.n, 0, 0);
  }

  lemma LoneLock(c: Config, s: State, q: RpState, b: BusRegs, r: RpIn, ack: bool, banks: seq<Lines>)
    requires LoneIn(c, s, q, b, r) && Legal(c, s, LoneInputs(c, r, b, ack)) && BanksSized(c, banks)
    ensures var i := LoneInputs(c, r, b, ack); var req := LinelockReqs(c, s, i, banks);
      LineLockGrants(s.linelock, req, WorkIndices(c, s, i), 0) == req && req[c.n] == BReqLinelock(b)
  {
    hide LineLockGrants, WorkIndices, BReqLinelock, ReqLinelock, BusHit;
    var i := LoneInputs(c, r, b, ack);
    var req := LinelockReqs(c, s, i, banks);
    forall j | 0 <= j < c.n
      ensures !req[j]
    {
      QuietPort(s.wp[j], i.wp[j], banks[c.geo.Bank(i.wp[j].adr)][2 * c.n + j]);
    }
    SoleLineLock(s.linelock, req, WorkIndices(c, s, i), 0, c.n);
  }

  // The grants, as the port and the bus interface see them.
  lemma LoneGrants(c: Config, s: State, q: RpState, b: BusRegs, r: RpIn, ack: bool)
    requires LoneIn(c, s, q, b, r) && Legal(c, s, LoneInputs(c, r, b, ack))
    ensures var i := LoneInputs(c, r, b, ack); var g := GrantsOf(c, s, i);
      && RpGrants(c, i, g, 0) == LoneGnt(q, r, s.tagReady)
      && BusGrants(c, g) == LoneBusGnt(b, c.geo.banks, s.tagReady)
      && OnlyLine(g.busif, 0) && g.busif[0] == RReqBusif(q, r)
  {
    var i := LoneInputs(c, r, b, ack);
    hide TagReadGrants, TagWriteGrants, BusIfGrants, BankGrants, LineLockGrants, WayIndices, WorkIndices, BankReqs;
    hide TagrReqs, TagwReqs, BusifReqs, LinelockReqs, LoneIn, OnlyLine, Geometry.Bank, RReqTagr, RReqBusif, BReqTagr;
    hide BReqTagw, BReqLinelock, SameRequest, LoneInputs;
    var g := GrantsOf(c, s, i);
    LonePrio(c, r, b, ack);
    LoneTags(c, s, q, b, r, ack);
    LoneBusif(c, s, q, b, r, ack);
    forall bank | 0 <= bank < c.geo.banks
      ensures g.banks[bank] == AllOff(3 * c.n + 1)
    {
      NoBankAsked(c, s, q, b, r, ack, bank);
    }
    LoneLock(c, s, q, b, r, ack, g.banks);
  }

  lemma LonePrio(c: Config, r: RpIn, b: BusRegs, ack: bool)
    ensures LoneInputs(c, r, b, ack).prio == 0
  {}

  lemma LoneOffered(c: Config, s: State, q: RpState, b: BusRegs, r: RpIn, ack: bool, busif: Lines)
    requires LoneIn(c, s, q, b, r) && Legal(c, s, LoneInputs(c, r, b, ack))
    requires |busif| == 3 * c.n && OnlyLine(busif, 0) && busif[0] == RReqBusif(q, r)
    ensures Offered(c, s, LoneInputs(c, r, b, ack), busif) == LoneOffer(q, r, ack)
  {
    hide RReqBusif, RBusifOp, RReqTagr, BReqTagr, BReqTagw, BusHit, LastSet;
    OnlySet(busif, 0);
  }

  // One cycle: port and bus interface are given all that they ask for.
  lemma LoneStep(c: Config, s: State, q: RpState, b: BusRegs, r: RpIn, ack: bool) returns (i: Inputs, t: State)
    requires LoneIn(c, s, q, b, r)
    ensures i == LoneInputs(c, r, b, ack) && Legal(c, s, i) && t == Step(c, s, i) && t.tagReady
    ensures RpGrants(c, i, GrantsOf(c, s, i), 0) == LoneGnt(q, r, s.tagReady)
    ensures var b2 := BusNext(b, c.geo, LoneOffer(q, r, ack), LoneBusGnt(b, c.geo.banks, s.tagReady));
      !b2.pc.VictimRead? && !b2.pc.Fill? ==> Lone(c, t, RNextState(q, r, LoneGnt(q, r, s.tagReady)), b2)
  {
    hide GrantsOf, RNextState, BusNext, RReqTagr, RReqBusif, BReqTagr, BReqTagw, Offered, BusGrants, RpGrants, Advance;
    hide NextState, Ack, WpGrants, WayIndices, LoneBusGnt, LoneGnt, LoneOffer, OnlyLine, LockOwner, BusHit, Links;
    i := LoneInputs(c, r, b, ack);
    LoneLegal(c, s, q, b, r, ack);
    LoneGrants(c, s, q, b, r, ack);
    var g := GrantsOf(c, s, i);
    LoneOffered(c, s, q, b, r, ack, g.busif);
    t := Step(c, s, i);
    AdvanceAdvances(c, s, i, g);
    LoneOthers(c, s, q, b, r, ack, g, t);
  }

  lemma LoneOthers(c: Config, s: State, q: RpState, b: BusRegs, r: RpIn, ack: bool, g: Grants, t: State)
    requires LoneIn(c, s, q, b, r) && Advances(c, s, LoneInputs(c, r, b, ack), g, t)
    ensures forall p | 0 <= p < c.n :: t.wp[p].state == Init && !t.pending[p]
    ensures forall p | 1 <= p < 2 * c.n :: t.rp[p] == RInit
  {
    hide RNextState, BusNext, RReqTagr, BReqTagr, BReqTagw, Offered, BusGrants, RpGrants, NextState, Ack, WpGrants;
    hide WayIndices, LockOwner, BusHit, Links;
    var i := LoneInputs(c, r, b, ack);
    forall p | 0 <= p < c.n
      ensures t.wp[p].state == Init && !t.pending[p]
    {
      QuietStep(s.wp[p], i.wp[p], WpGrants(c, i, g, p));
      assert t.wp[p] == NextWp(c, s, i, g, p);
    }
    forall p | 1 <= p < 2 * c.n
      ensures t.rp[p] == RInit
    {
      QuietReads(i.rp[p], RpGrants(c, i, g, p));
    }
  }

  // ---------- The course of the run ----------

  // The replacement of the line at 'a', which port 0 has asked for.
  function ReplacementAt(pc: Pc, a: Adr): BusRegs {
    BusRegs(pc, ReplaceLine, false, a, true, NO_TAG, false)
  }

  function ReaderAt(x: nat): RpState {
    if x <= 1 then RInit
    else if x == 2 then RReadTag
    else if x == 3 then RMissWaitBusif
    else if x == 4 then RMissRequestTag
    else if x == 5 then RMissReadTag
    else if x <= 13 then RMissReplace
    else if x == 14 then RInit
    else if x == 15 then RDirectWaitBusif
    else RInit
  }

  function BusAtCycle(x: nat, a: Adr): BusRegs {
    if x <= 6 then RESET
    else ReplacementAt(
      if x == 7 then Pc.Idle
      else if x == 8 then LockWait
      else if x == 9 then TagWait
      else if x == 10 then TagRead
      else if x == 11 then TagHave
      else if x == 12 then BusRead(0)
      else BusRead(1), a)
  }

  // The CPU reads the word at 'a', from cycle 14 on without the cache.
  function ReadAtCycle(x: nat, a: Adr): RpIn {
    RpIn(true, x >= 14, a, BusHit(BusAtCycle(x, a), a), NO_TAG, ZERO_WORD, ZERO_WORD, BusAtCycle(x, a).busy)
  }

  lemma MixedPort(x: nat, a: Adr)
    requires x < 16
    ensures var q, r := ReaderAt(x), ReadAtCycle(x, a);
      && RNextState(q, r, LoneGnt(q, r, x > 0)) == ReaderAt(x + 1)
      && !(RReqTagr(q, r) && (BReqTagr(BusAtCycle(x, a)) || BReqTagw(BusAtCycle(x, a))))
      && (RAck(q, r, LoneGnt(q, r, x > 0)) <==> x == 13 || x == 15)
  {}

  lemma MixedBus(geo: Geometry, x: nat, a: Adr)
    requires x < 16 && geo.Valid() && geo.banks > 1 && WordAdr(a) == a
    ensures var q, r, b := ReaderAt(x), ReadAtCycle(x, a), BusAtCycle(x, a);
      BusNext(b, geo, LoneOffer(q, r, x == 12), LoneBusGnt(b, geo.banks, x > 0)) == BusAtCycle(x + 1, a)
  {}

  // Cycle 'x' of the run.
  ghost predicate MixedAt(c: Config, s: State, i: Inputs, x: nat, a: Adr) {
    && Legal(c, s, i) && i.rp[0] == ReadAtCycle(x, a) && s.bus.op != DirectRead
    && (RAck(s.rp[0], i.rp[0], RpGrants(c, i, GrantsOf(c, s, i), 0)) <==> x == 13 || x == 15)
  }

  lemma MixedCycle(c: Config, s: State, x: nat, a: Adr) returns (i: Inputs, t: State)
    requires c.Valid() && c.geo.banks > 1 && WordAdr(a) == a && x < 16
    requires Lone(c, s, ReaderAt(x), BusAtCycle(x, a)) && s.tagReady == (x > 0)
    ensures MixedAt(c, s, i, x, a) && t == Step(c, s, i)
    ensures Lone(c, t, ReaderAt(x + 1), BusAtCycle(x + 1, a)) && t.tagReady
  {
    hide Step, GrantsOf, RNextState, BusNext, RAck, RpGrants, LoneGnt, LoneBusGnt, LoneOffer, BusHit, RReqTagr;
    hide BReqTagr;
    hide BReqTagw, SameRequest, ReaderAt;
    MixedPort(x, a);
    MixedBus(c.geo, x, a);
    i, t := LoneStep(c, s, ReaderAt(x), BusAtCycle(x, a), ReadAtCycle(x, a), x == 12);
  }

  lemma MixedIsLegal(c: Config, s: State, i: Inputs, x: nat, a: Adr)
    requires MixedAt(c, s, i, x, a)
    ensures Legal(c, s, i)
  {}

  lemma RunGrows(c: Config, tr: seq<State>, ins: seq<Inputs>, i: Inputs, t: State)
    requires Run(c, tr, ins) && Legal(c, tr[|ins|], i) && t == Step(c, tr[|ins|], i)
    ensures Run(c, tr + [t], ins + [i])
  {
    hide Legal, Step, Initial;
  }

  lemma MixedStarts(c: Config, a: Adr) returns (s: State)
    requires c.Valid()
    ensures Run(c, [s], []) && Lone(c, s, ReaderAt(0), BusAtCycle(0, a)) && !s.tagReady
  {
    s := RunStarts(c);
  }

  // With two banks or more there is a run from reset in which read port 0 is acknowledged in cycle 13 for the word at
  // 'a' and, in the access that follows, in cycle 15 for an uncached read of that word, which the bus interface has
  // never taken over.
  lemma UncachedReadNotIssued(c: Config, a: Adr) returns (tr: seq<State>, ins: seq<Inputs>)
    requires c.Valid() && c.geo.banks > 1 && WordAdr(a) == a
    ensures |ins| == 16 && Run(c, tr, ins) && forall k | 0 <= k < 16 :: MixedAt(c, tr[k], ins[k], k, a)
  {
    hide *;
    var s := MixedStarts(c, a);
    tr, ins := [s], [];
    for x := 0 to 16
      invariant |ins| == x && |tr| == x + 1 && Run(c, tr, ins)
      invariant Lone(c, tr[x], ReaderAt(x), BusAtCycle(x, a)) && tr[x].tagReady == (x > 0)
      invariant forall k | 0 <= k < x :: MixedAt(c, tr[k], ins[k], k, a)
    {
      var i, t := MixedCycle(c, tr[x], x, a);
      MixedIsLegal(c, tr[x], i, x, a);
      RunGrows(c, tr, ins, i, t);
      tr, ins := tr + [t], ins + [i];
    }
  }
}
