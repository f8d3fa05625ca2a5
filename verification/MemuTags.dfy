// The tag lock over a cycle of the memory unit, and the invariant of all reachable states.

module MemuTags {
  import opened Address
  import opened ArbiterSpec
  import opened BankArbiter
  import opened WritePortSpec
  import opened ReadPortSpec
  import opened BusIfSpec
  import opened MemuSpec
  import opened MemuProofs
  import opened MemuBanks

  // The second cycle of a tag write.
  predicate SecondTagCycle(s: WpState) {
    s.WriteTag2? || s.WriteTag2AndBank?
  }

  ghost predicate TagOk(c: Config, s: State)
    requires c.Valid() && Sized(c, s)
  {
    && TagLockExclusive(s.tagr, s.tagw, c.n)
    && (forall p | 0 <= p < c.n :: SecondTagCycle(s.wp[p].state) ==> s.tagw[p])
    && (forall p | 0 <= p < 2 * c.n :: HoldsTag(s.rp[p]) ==> s.tagr[p])
    && (BTagWr(s.bus) ==> s.tagw[c.n])
    && (!s.tagReady ==> NoneSet(s.tagr) && NoneSet(s.tagw))
  }

  ghost predicate TagGranted(c: Config, s: State, i: Inputs, g: Grants)
    requires Legal(c, s, i) && GrantsSized(c, g)
  {
    && TagLockExclusive(g.tagr, g.tagw, c.n)
    && GrantsKept(s.tagr, TagrReqs(c, s, i), g.tagr)
    && GrantsKept(s.tagw, TagwReqs(c, s, i), g.tagw)
  }

  // Readers are granted first, then writers; nothing is granted before the tag RAM is ready.
  lemma TagIsGranted(c: Config, s: State, i: Inputs, g: Grants)
    requires Legal(c, s, i) && TagOk(c, s) && GrantsSized(c, g)
    requires s.tagReady ==> g.tagr == TagReadGrants(s.tagr, TagrReqs(c, s, i), TagwReqs(c, s, i), c.n)
    requires s.tagReady ==> g.tagw == TagWriteGrants(s.tagw, TagwReqs(c, s, i), g.tagr, c.n, i.prio)
    requires !s.tagReady ==> NoneSet(g.tagr) && NoneSet(g.tagw)
    ensures TagGranted(c, s, i, g)
  {
    hide TagReadGrants, TagWriteGrants;
    var reqR, reqW := TagrReqs(c, s, i), TagwReqs(c, s, i);
    hide TagrReqs, TagwReqs, Kept;
    if s.tagReady {
      TagReadersSafe(s.tagr, s.tagw, reqR, reqW, c.n);
      TagWritersSafe(g.tagr, s.tagw, reqW, c.n, i.prio);
    }
  }

  // A port that writes a tag has been granted the tag lock in this cycle or, for the second cycle, before.
  lemma WpWritesTag(r: WpRegs, i: WpIn, g: WpGnt)
    ensures TagWr(r, g) ==> g.tagw || SecondTagCycle(r.state)
    ensures SecondTagCycle(NextState(r, i, g)) ==> g.tagw
    ensures SecondTagCycle(r.state) ==> ReqTagw(r)
  {}

  lemma RpSamplesTag(q: RpState, j: RpIn, h: RpGnt)
    ensures HoldsTag(RNextState(q, j, h)) ==> h.tagr || HoldsTag(q)
    ensures HoldsTag(q) ==> RReqTagr(q, j)
  {}

  lemma BusWritesTag(b: BusRegs, geo: Geometry, i: BusIn, g: BusGnt)
    requires geo.Valid() && |g.bank| == geo.banks && BusSized(b, geo)
    ensures BTagWr(BusNext(b, geo, i, g)) ==> g.tagw || BTagWr(b)
    ensures BTagWr(b) ==> BReqTagw(b)
  {}

  lemma WpHasTagw(c: Config, s: State, i: Inputs, g: Grants, p: nat)
    requires Legal(c, s, i) && TagOk(c, s) && GrantsSized(c, g) && TagGranted(c, s, i, g)
    requires p < c.n && TagWr(s.wp[p], WpGrants(c, i, g, p))
    ensures g.tagw[p]
  {
    hide TagWr, ReqTagw, SecondTagCycle, NextState, TagLockExclusive, TagrReqs;
    WpWritesTag(s.wp[p], i.wp[p], WpGrants(c, i, g, p));
    assert TagwReqs(c, s, i)[p] == ReqTagw(s.wp[p]);
  }

  lemma RpHasTagr(c: Config, s: State, i: Inputs, g: Grants, p: nat)
    requires Legal(c, s, i) && TagOk(c, s) && GrantsSized(c, g) && TagGranted(c, s, i, g)
    requires p < 2 * c.n && HoldsTag(s.rp[p])
    ensures g.tagr[p]
  {
    hide HoldsTag, RReqTagr, RNextState, TagLockExclusive, TagwReqs;
    RpSamplesTag(s.rp[p], i.rp[p], RpGrants(c, i, g, p));
    assert TagrReqs(c, s, i)[p] == RReqTagr(s.rp[p], i.rp[p]);
  }

  lemma BusHasTagw(c: Config, s: State, i: Inputs, g: Grants)
    requires Legal(c, s, i) && TagOk(c, s) && GrantsSized(c, g) && TagGranted(c, s, i, g)
    requires BTagWr(s.bus)
    ensures g.tagw[c.n]
  {
    hide TagLockExclusive, TagrReqs;
    assert TagwReqs(c, s, i)[c.n] == BReqTagw(s.bus);
  }

  lemma AdvanceTagPorts(c: Config, s: State, i: Inputs, g: Grants, t: State)
    requires Advances(c, s, i, g, t) && TagOk(c, s) && TagGranted(c, s, i, g)
    ensures forall p | 0 <= p < c.n :: SecondTagCycle(t.wp[p].state) ==> t.tagw[p]
    ensures forall p | 0 <= p < 2 * c.n :: HoldsTag(t.rp[p]) ==> t.tagr[p]
  {
    hide NextState, SecondTagCycle, HoldsTag, RNextState, BusNext, Ack, Offered, TagLockExclusive, TagwReqs;
    hide TagrReqs, GrantsKept;
    forall p | 0 <= p < c.n
      ensures SecondTagCycle(t.wp[p].state) ==> t.tagw[p]
    {
      WpWritesTag(s.wp[p], i.wp[p], WpGrants(c, i, g, p));
    }
    forall p | 0 <= p < 2 * c.n
      ensures HoldsTag(t.rp[p]) ==> t.tagr[p]
    {
      if HoldsTag(s.rp[p]) {
        RpHasTagr(c, s, i, g, p);
      }
      RpSamplesTag(s.rp[p], i.rp[p], RpGrants(c, i, g, p));
    }
  }

  lemma AdvanceTag(c: Config, s: State, i: Inputs, g: Grants, t: State)
    requires Advances(c, s, i, g, t) && TagOk(c, s) && TagGranted(c, s, i, g)
    ensures TagOk(c, t)
  {
    AdvanceTagPorts(c, s, i, g, t);
    hide NextWp, SecondTagCycle, HoldsTag, RNextState, BusNext, BTagWr, Ack, Offered, TagLockExclusive, TagwReqs;
    hide TagrReqs, GrantsKept;
    if BTagWr(s.bus) {
      BusHasTagw(c, s, i, g);
    }
    BusWritesTag(s.bus, c.geo, Offered(c, s, i, g.busif), BusGrants(c, g));
  }

  // ---------- The invariant ----------

  ghost predicate Inv(c: Config, s: State) {
    && c.Valid() && Sized(c, s)
    && PendingOk(c, s) && BusifOk(c, s) && BusOk(s.bus) && SpecialOk(c, s) && LockOk(c, s) && TagOk(c, s)
    && BanksOk(c, s)
  }

  lemma InitialInv(c: Config, s: State)
    requires Initial(c, s)
    ensures Inv(c, s)
  {}

  // What the arbiter grants in a reachable state.
  ghost predicate Granted(c: Config, s: State, i: Inputs, g: Grants) {
    && Legal(c, s, i) && GrantsSized(c, g)
    && BusifGranted(c, s, i, g) && LockGranted(c, s, i, g) && TagGranted(c, s, i, g)
    && BanksGranted(c, s, i, g)
  }

  lemma GrantsGranted(c: Config, s: State, i: Inputs)
    requires Inv(c, s) && Legal(c, s, i)
    ensures Granted(c, s, i, GrantsOf(c, s, i))
  {
    hide PendingOk, BusifOk, BusOk, SpecialOk, LockOk, TagOk, BanksOk;
    hide BusifGranted, LockGranted, TagGranted, BanksGranted, WayIndices;
    hide TagrReqs, TagwReqs, BusifReqs, BankReqs, LinelockReqs, WorkIndices, BankGrants;
    hide TagReadGrants, TagWriteGrants, LineLockGrants, BusIfGrants, AllOff;
    var g := GrantsOf(c, s, i);
    BusifIsGranted(c, s, i, g);
    LockIsGranted(c, s, i, g);
    TagIsGranted(c, s, i, g);
    BanksAreGranted(c, s, i, g);
  }

  lemma AdvanceInv(c: Config, s: State, i: Inputs, g: Grants, t: State)
    requires Inv(c, s) && Granted(c, s, i, g) && Advances(c, s, i, g, t)
    ensures Inv(c, t)
  {
    hide PendingOk, BusifOk, BusOk, SpecialOk, LockOk, TagOk, BanksOk;
    hide BusifGranted, LockGranted, TagGranted, BanksGranted, WayIndices;
    hide NextWp, RNextState, BusNext, Ack, Offered;
    AdvancePending(c, s, i, g, t);
    AdvanceBusif(c, s, i, g, t);
    BusStaysOk(s.bus, c.geo, Offered(c, s, i, g.busif), BusGrants(c, g));
    AdvanceSpecial(c, s, i, g, t);
    AdvanceLock(c, s, i, g, t);
    AdvanceTag(c, s, i, g, t);
    AdvanceBanks(c, s, i, g, t);
  }
}
