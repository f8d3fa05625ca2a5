// What every cycle of the memory unit keeps.

module MemuProofs {
  import opened Words
  import opened Address
  import opened ArbiterSpec
  import opened WritePortSpec
  import opened ReadPortSpec
  import opened BusIfSpec
  import opened MemuSpec

  // ---------- The bus interface on its own ----------

  // An idle bus interface is between two operations; a latched operation makes it busy.
  ghost predicate BusOk(b: BusRegs) {
    && (!b.busy ==> b.op == Nothing && (b.pc.Idle? || b.pc.DirectDone? || b.pc.Done?))
    && (b.pc == Done || (b.pc == Idle && b.op == Nothing) ==> !b.busy)
  }

  ghost predicate BusSized(b: BusRegs, geo: Geometry) {
    && (b.pc.VictimRead? ==> |b.pc.left| == geo.banks)
    && (b.pc.Fill? ==> |b.pc.left| == geo.banks)
  }

  lemma NextWordSameLine(geo: Geometry, a: Adr)
    requires geo.Valid()
    ensures geo.Index(NextWord(geo, a)) == geo.Index(a) && geo.Tag(NextWord(geo, a)) == geo.Tag(a)
  {
    SplitComposes(geo, a);
    ComposeSplits(geo, geo.Tag(a), geo.Index(a), if geo.Bank(a) + 1 == geo.banks then 0 else geo.Bank(a) + 1);
  }

  lemma WordSameLine(geo: Geometry, a: Adr)
    requires geo.Valid()
    ensures geo.Index(WordAdr(a)) == geo.Index(a) && geo.Tag(WordAdr(a)) == geo.Tag(a)
  {
    SplitComposes(geo, a);
    ComposeSplits(geo, geo.Tag(a), geo.Index(a), geo.Bank(a));
  }

  lemma BusStaysOk(b: BusRegs, geo: Geometry, i: BusIn, g: BusGnt)
    requires geo.Valid() && |g.bank| == geo.banks && BusSized(b, geo) && BusOk(b)
    ensures BusOk(BusNext(b, geo, i, g))
  {}

  lemma BusStaysSized(b: BusRegs, geo: Geometry, i: BusIn, g: BusGnt)
    requires geo.Valid() && |g.bank| == geo.banks && BusSized(b, geo)
    ensures BusSized(BusNext(b, geo, i, g), geo)
  {}

  // The bus interface keeps to the set it has locked.
  lemma BusKeepsSet(b: BusRegs, geo: Geometry, i: BusIn, g: BusGnt)
    requires geo.Valid() && |g.bank| == geo.banks && BusSized(b, geo) && BusOk(b)
    requires BReqLinelock(b) && BReqLinelock(BusNext(b, geo, i, g))
    ensures geo.Index(NextAdr(b, geo, i)) == geo.Index(b.adr)
  {
    NextWordSameLine(geo, b.adr);
    WordSameLine(geo, b.adr);
  }

  // It accepts new inputs only between operations, and then does not ask for the lock.
  lemma BusLatches(b: BusRegs, geo: Geometry, i: BusIn, g: BusGnt)
    requires geo.Valid() && |g.bank| == geo.banks && BusSized(b, geo) && BusOk(b)
    ensures !b.busy <==> Accepting(b)
    ensures !b.busy ==> NextPc(b, geo, i, g) == Idle
  {}

  // ---------- What the grants of a cycle promise ----------

  ghost predicate GrantsKept(held: Lines, req: Lines, g: Lines) {
    && |held| == |req| == |g|
    && (forall k | 0 <= k < |g| :: g[k] ==> req[k])
    && (forall k | 0 <= k < |g| :: held[k] && req[k] ==> g[k])
  }

  // ---------- One step, component by component ----------

  ghost predicate Advances(c: Config, s: State, i: Inputs, g: Grants, t: State) {
    && Legal(c, s, i) && GrantsSized(c, g) && Sized(c, t)
    && t.linelock == g.linelock && t.tagr == g.tagr && t.tagw == g.tagw && t.busif == g.busif && t.banks == g.banks
    && t.tagReady && t.lastIn == i.wp && t.lastWiadr == WayIndices(c, s, i)
    && (forall p | 0 <= p < c.n :: t.wp[p] == NextWp(c, s, i, g, p))
    && (forall p | 0 <= p < c.n ::
        t.pending[p] == (HasRequest(i.wp[p]) && !Ack(s.wp[p], i.wp[p], WpGrants(c, i, g, p))))
    && (forall p | 0 <= p < 2 * c.n :: t.rp[p] == RNextState(s.rp[p], i.rp[p], RpGrants(c, i, g, p)))
    && t.bus == BusNext(s.bus, c.geo, Offered(c, s, i, g.busif), BusGrants(c, g))
  }

  lemma AdvanceAdvances(c: Config, s: State, i: Inputs, g: Grants)
    requires Legal(c, s, i) && GrantsSized(c, g)
    ensures Advances(c, s, i, g, Advance(c, s, i, g))
  {
    BusStaysSized(s.bus, c.geo, Offered(c, s, i, g.busif), BusGrants(c, g));
  }

  // ---------- Write ports hold their request while they work on it ----------

  ghost predicate PendingOk(c: Config, s: State)
    requires Sized(c, s)
  {
    forall p | 0 <= p < c.n ::
      (s.wp[p].state != Init ==> s.pending[p]) && (s.pending[p] ==> HasRequest(s.lastIn[p]))
  }

  lemma PortPending(r: WpRegs, i: WpIn, g: WpGnt)
    requires r.state != Init ==> HasRequest(i)
    ensures NextState(r, i, g) != Init ==> HasRequest(i) && !Ack(r, i, g)
  {}

  lemma AdvancePending(c: Config, s: State, i: Inputs, g: Grants, t: State)
    requires Advances(c, s, i, g, t) && PendingOk(c, s)
    ensures PendingOk(c, t)
  {
    forall p | 0 <= p < c.n
      ensures t.wp[p].state != Init ==> t.pending[p]
      ensures t.pending[p] ==> HasRequest(t.lastIn[p])
    {
      assert s.pending[p] ==> SameRequest(i.wp[p], s.lastIn[p]);
      PortPending(s.wp[p], i.wp[p], WpGrants(c, i, g, p));
    }
  }

  // ---------- The bus interface has one owner ----------

  ghost predicate BusifOk(c: Config, s: State)
    requires Sized(c, s)
  {
    && OneHot(s.busif)
    && (forall p | 0 <= p < c.n :: OwnsBusif(s.wp[p].state) ==> s.busif[2 * c.n + p])
    && (forall p | 0 <= p < 2 * c.n :: ROwnsBusif(s.rp[p]) ==> s.busif[p])
  }

  // The bus interface grants: one owner, and an owner that keeps asking stays owner.
  ghost predicate BusifGranted(c: Config, s: State, i: Inputs, g: Grants)
    requires Legal(c, s, i) && GrantsSized(c, g)
  {
    && OneHot(g.busif) && GrantsKept(s.busif, BusifReqs(c, s, i), g.busif)
    && (forall p | 0 <= p < c.n :: OwnsBusif(s.wp[p].state) ==> g.busif[2 * c.n + p])
    && (forall p | 0 <= p < 2 * c.n :: ROwnsBusif(s.rp[p]) ==> g.busif[p])
  }

  lemma WpOwnerKept(c: Config, s: State, i: Inputs, req: Lines, g: Lines, p: nat)
    requires Legal(c, s, i) && p < c.n && req == BusifReqs(c, s, i) && GrantsKept(s.busif, req, g)
    requires OwnsBusif(s.wp[p].state) && s.busif[2 * c.n + p]
    ensures g[2 * c.n + p]
  {
    OwnersAsk(s.wp[p], i.wp[p], RInit, i.rp[p]);
    assert req[2 * c.n + p];
  }

  lemma RpOwnerKept(c: Config, s: State, i: Inputs, req: Lines, g: Lines, p: nat)
    requires Legal(c, s, i) && p < 2 * c.n && req == BusifReqs(c, s, i) && GrantsKept(s.busif, req, g)
    requires ROwnsBusif(s.rp[p]) && s.busif[p]
    ensures g[p]
  {
    OwnersAsk(s.wp[0], i.wp[0], s.rp[p], i.rp[p]);
    assert req[p];
  }

  lemma BusifIsGranted(c: Config, s: State, i: Inputs, g: Grants)
    requires Legal(c, s, i) && BusifOk(c, s) && GrantsSized(c, g)
    requires g.busif == BusIfGrants(s.busif, BusifReqs(c, s, i), c.n, i.prio)
    ensures BusifGranted(c, s, i, g)
  {
    var req := BusifReqs(c, s, i);
    BusIfSafe(s.busif, req, c.n, i.prio);
    forall p | 0 <= p < c.n && OwnsBusif(s.wp[p].state)
      ensures g.busif[2 * c.n + p]
    {
      WpOwnerKept(c, s, i, req, g.busif, p);
    }
    forall p | 0 <= p < 2 * c.n && ROwnsBusif(s.rp[p])
      ensures g.busif[p]
    {
      RpOwnerKept(c, s, i, req, g.busif, p);
    }
  }

  lemma OwnersAsk(r: WpRegs, i: WpIn, q: RpState, j: RpIn)
    ensures OwnsBusif(r.state) ==> ReqBusif(r, i)
    ensures ROwnsBusif(q) ==> RReqBusif(q, j)
  {}

  lemma WpOwnerGranted(r: WpRegs, i: WpIn, g: WpGnt)
    requires OwnsBusif(NextState(r, i, g))
    ensures OwnsBusif(r.state) || g.busif
  {}

  lemma RpOwnerGranted(q: RpState, j: RpIn, h: RpGnt)
    requires ROwnsBusif(RNextState(q, j, h))
    ensures ROwnsBusif(q) || h.busif
  {}

  lemma AdvanceWpOwner(c: Config, s: State, i: Inputs, g: Grants, t: State, p: nat)
    requires Advances(c, s, i, g, t) && BusifGranted(c, s, i, g) && p < c.n && OwnsBusif(t.wp[p].state)
    ensures t.busif[2 * c.n + p]
  {
    hide NextState, OwnsBusif, RNextState, BusNext, Ack, Offered;
    WpOwnerGranted(s.wp[p], i.wp[p], WpGrants(c, i, g, p));
  }

  lemma AdvanceRpOwner(c: Config, s: State, i: Inputs, g: Grants, t: State, p: nat)
    requires Advances(c, s, i, g, t) && BusifGranted(c, s, i, g) && p < 2 * c.n && ROwnsBusif(t.rp[p])
    ensures t.busif[p]
  {
    hide NextState, ROwnsBusif, RNextState, BusNext, Ack, Offered;
    RpOwnerGranted(s.rp[p], i.rp[p], RpGrants(c, i, g, p));
  }

  lemma AdvanceBusif(c: Config, s: State, i: Inputs, g: Grants, t: State)
    requires Advances(c, s, i, g, t) && BusifGranted(c, s, i, g)
    ensures BusifOk(c, t)
  {
    forall p | 0 <= p < c.n && OwnsBusif(t.wp[p].state)
      ensures t.busif[2 * c.n + p]
    {
      AdvanceWpOwner(c, s, i, g, t, p);
    }
    forall p | 0 <= p < 2 * c.n && ROwnsBusif(t.rp[p])
      ensures t.busif[p]
    {
      AdvanceRpOwner(c, s, i, g, t, p);
    }
  }

  // ---------- Special operations run without the line lock of the bus interface ----------

  ghost predicate SpecialOk(c: Config, s: State)
    requires Sized(c, s)
  {
    forall p | 0 <= p < c.n && IsSpecial(s.wp[p].state) ::
      s.bus.noLinelock || (s.bus.pc == Idle && s.bus.op == Nothing)
  }

  lemma OwnerOffers(c: Config, s: State, i: Inputs, busif: Lines, k: nat)
    requires Legal(c, s, i) && |busif| == 3 * c.n && k < 3 * c.n && OneHot(busif) && busif[k]
    ensures Offered(c, s, i, busif) ==
      if k < 2 * c.n then BusIn(RBusifOp(s.rp[k], i.rp[k]), false, i.rp[k].adr, i.busAck, i.busTag)
      else BusIn(BusifOp(s.wp[k - 2 * c.n], i.wp[k - 2 * c.n]), true, i.wp[k - 2 * c.n].adr, i.busAck, i.busTag)
  {}

  lemma SpecialPort(r: WpRegs, i: WpIn, g: WpGnt)
    requires IsSpecial(NextState(r, i, g))
    ensures g.busif || IsSpecial(r.state)
    ensures IsSpecial(r.state) || (!i.busy && BusifOp(r, i) == Nothing)
  {}

  lemma PortAdvanceSpecial(c: Config, s: State, i: Inputs, g: Grants, p: nat)
    requires Legal(c, s, i) && GrantsSized(c, g) && BusifGranted(c, s, i, g) && BusOk(s.bus) && SpecialOk(c, s)
    requires p < c.n && IsSpecial(NextState(s.wp[p], i.wp[p], WpGrants(c, i, g, p)))
    ensures if s.bus.busy then s.bus.noLinelock
            else Offered(c, s, i, g.busif).op == Nothing || Offered(c, s, i, g.busif).noLinelock
  {
    SpecialPort(s.wp[p], i.wp[p], WpGrants(c, i, g, p));
    assert i.wp[p].busy == s.bus.busy;
    OwnsWhenSpecial(s.wp[p].state);
    OwnerOffers(c, s, i, g.busif, 2 * c.n + p);
  }

  lemma OwnsWhenSpecial(s: WpState)
    ensures IsSpecial(s) ==> OwnsBusif(s)
  {}

  lemma AdvanceSpecial(c: Config, s: State, i: Inputs, g: Grants, t: State)
    requires Advances(c, s, i, g, t) && BusifGranted(c, s, i, g) && BusOk(s.bus) && SpecialOk(c, s)
    ensures SpecialOk(c, t)
  {
    BusLatches(s.bus, c.geo, Offered(c, s, i, g.busif), BusGrants(c, g));
    forall p | 0 <= p < c.n && IsSpecial(t.wp[p].state)
      ensures t.bus.noLinelock || (t.bus.pc == Idle && t.bus.op == Nothing)
    {
      PortAdvanceSpecial(c, s, i, g, p);
    }
  }

  // ---------- The line lock ----------

  // The bus interface has been given the lock and has not finished.
  predicate BusHoldsLock(b: BusRegs) {
    BReqLinelock(b) && !b.pc.LockWait?
  }

  ghost predicate LockOk(c: Config, s: State)
    requires c.Valid() && Sized(c, s)
  {
    && (forall p, q | 0 <= p < q < c.n :: !(s.linelock[p] && s.linelock[q]))
    && (forall p | 0 <= p < c.n :: Critical(s.wp[p].state) ==> s.linelock[p])
    // a port may keep the lock for a new request only after a special operation
    && (forall p | 0 <= p < c.n :: s.linelock[p] && !s.pending[p] ==> !BReqLinelock(s.bus))
    && (s.linelock[c.n] && BReqLinelock(s.bus) ==>
        forall p | 0 <= p < c.n :: s.linelock[p] ==> c.geo.Index(s.lastIn[p].adr) != c.geo.Index(s.bus.adr))
    && (BusHoldsLock(s.bus) ==> s.linelock[c.n])
  }

  ghost predicate LockGranted(c: Config, s: State, i: Inputs, g: Grants)
    requires Legal(c, s, i) && GrantsSized(c, g)
  {
    && LineLockExclusive(g.linelock, WorkIndices(c, s, i))
    && GrantsKept(s.linelock, LinelockReqs(c, s, i, g.banks), g.linelock)
  }

  // A kept grant still is for the address it was given for, or the bus interface does not ask.
  lemma KeptLocksExclusive(c: Config, s: State, i: Inputs, req: Lines)
    requires Legal(c, s, i) && LockOk(c, s)
    requires |req| == c.n + 1 && req[c.n] == BReqLinelock(s.bus)
    ensures LineLockExclusive(Kept(s.linelock, req), WorkIndices(c, s, i))
  {
    var kept, ix := Kept(s.linelock, req), WorkIndices(c, s, i);
    forall p | 0 <= p < c.n && kept[c.n] && kept[p]
      ensures ix.wp[p] != ix.bus
    {
      assert s.pending[p];
      assert SameRequest(i.wp[p], s.lastIn[p]);
    }
  }

  lemma LockIsGranted(c: Config, s: State, i: Inputs, g: Grants)
    requires Legal(c, s, i) && LockOk(c, s) && GrantsSized(c, g)
    requires g.linelock == LineLockGrants(s.linelock, LinelockReqs(c, s, i, g.banks), WorkIndices(c, s, i), i.prio)
    ensures LockGranted(c, s, i, g)
  {
    var req := LinelockReqs(c, s, i, g.banks);
    KeptLocksExclusive(c, s, i, req);
    LineLockSafe(s.linelock, req, WorkIndices(c, s, i), i.prio);
  }

  // A port enters a critical state only with the lock, and asks for it as long as it stays in one.
  lemma CriticalPort(r: WpRegs, i: WpIn, g: WpGnt)
    requires Critical(NextState(r, i, g))
    ensures g.linelock || (Critical(r.state) && ReqLinelock(r, i, g.bank))
  {}

  // A port that is acknowledged while it asks for the lock has finished a special operation.
  lemma AckedWithLock(r: WpRegs, i: WpIn, g: WpGnt)
    requires ReqLinelock(r, i, g.bank)
    ensures Ack(r, i, g) ==> r.state.SpecialWaitComplete? && !i.busy
    ensures r.state == Init ==> HasRequest(i)
  {}

  lemma BusLockStep(b: BusRegs, geo: Geometry, i: BusIn, g: BusGnt)
    requires geo.Valid() && |g.bank| == geo.banks && BusSized(b, geo) && BusOk(b)
    requires BusHoldsLock(BusNext(b, geo, i, g))
    ensures g.linelock || BusHoldsLock(b)
  {}

  lemma AdvanceCritical(c: Config, s: State, i: Inputs, g: Grants, t: State)
    requires Advances(c, s, i, g, t) && LockOk(c, s) && LockGranted(c, s, i, g)
    ensures forall p | 0 <= p < c.n :: Critical(t.wp[p].state) ==> t.linelock[p]
  {
    hide NextState, Critical, RNextState, BusNext, Ack, Offered, BReqLinelock;
    var req := LinelockReqs(c, s, i, g.banks);
    forall p | 0 <= p < c.n && Critical(t.wp[p].state)
      ensures t.linelock[p]
    {
      CriticalPort(s.wp[p], i.wp[p], WpGrants(c, i, g, p));
      assert req[p] == ReqLinelock(s.wp[p], i.wp[p], WpGrants(c, i, g, p).bank);
    }
  }

  lemma AdvanceCarried(c: Config, s: State, i: Inputs, g: Grants, t: State)
    requires Advances(c, s, i, g, t) && PendingOk(c, s) && SpecialOk(c, s) && BusOk(s.bus) && LockGranted(c, s, i, g)
    ensures forall p | 0 <= p < c.n :: t.linelock[p] && !t.pending[p] ==> !BReqLinelock(t.bus)
  {
    hide NextState, RNextState, NextAdr, Ack;
    var req := LinelockReqs(c, s, i, g.banks);
    BusLatches(s.bus, c.geo, Offered(c, s, i, g.busif), BusGrants(c, g));
    forall p | 0 <= p < c.n && t.linelock[p] && !t.pending[p]
      ensures !BReqLinelock(t.bus)
    {
      assert req[p] == ReqLinelock(s.wp[p], i.wp[p], WpGrants(c, i, g, p).bank);
      AckedWithLock(s.wp[p], i.wp[p], WpGrants(c, i, g, p));
      assert i.wp[p].busy == s.bus.busy;
      assert s.pending[p] ==> SameRequest(i.wp[p], s.lastIn[p]);
    }
  }

  lemma AdvanceBusLock(c: Config, s: State, i: Inputs, g: Grants, t: State)
    requires Advances(c, s, i, g, t) && BusOk(s.bus) && LockOk(c, s) && LockGranted(c, s, i, g)
    ensures BusHoldsLock(t.bus) ==> t.linelock[c.n]
    ensures t.linelock[c.n] && BReqLinelock(t.bus) ==>
      forall p | 0 <= p < c.n :: t.linelock[p] ==> c.geo.Index(t.lastIn[p].adr) != c.geo.Index(t.bus.adr)
  {
    var o, h := Offered(c, s, i, g.busif), BusGrants(c, g);
    assert LinelockReqs(c, s, i, g.banks)[c.n] == BReqLinelock(s.bus);
    if BusHoldsLock(t.bus) {
      BusLockStep(s.bus, c.geo, o, h);
    }
    if t.linelock[c.n] && BReqLinelock(t.bus) {
      BusKeepsSet(s.bus, c.geo, o, h);
    }
  }

  lemma AdvanceLock(c: Config, s: State, i: Inputs, g: Grants, t: State)
    requires Advances(c, s, i, g, t) && LockGranted(c, s, i, g)
    requires PendingOk(c, s) && SpecialOk(c, s) && BusOk(s.bus) && LockOk(c, s)
    ensures LockOk(c, t)
  {
    hide NextWp, RNextState, BusNext, Ack, Offered, Critical, BReqLinelock, BusHoldsLock, LinelockReqs, GrantsKept;
    hide PendingOk, SpecialOk, BusOk;
    AdvanceCritical(c, s, i, g, t);
    AdvanceCarried(c, s, i, g, t);
    AdvanceBusLock(c, s, i, g, t);
  }
}
