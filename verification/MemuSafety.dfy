// The protocol of the memory unit over whole runs: who may work on a line, who may write tags, how long a port can
// wait for a resource while holding a later one, what a valid link and an acknowledge tell the CPU.

module MemuSafety {
  import opened Words
  import opened Address
  import opened ArbiterSpec
  import opened BankArbiter
  import opened WritePortSpec
  import opened ReadPortSpec
  import opened BusIfSpec
  import opened MemuSpec
  import opened MemuProofs
  import opened MemuBanks
  import opened MemuTags

  // The grants of cycle 'k'.
  function GrantsAt(c: Config, tr: seq<State>, ins: seq<Inputs>, k: nat): (g: Grants)
    requires k < |ins| && |tr| == |ins| + 1 && Legal(c, tr[k], ins[k])
    ensures GrantsSized(c, g)
  {
    GrantsOf(c, tr[k], ins[k])
  }

  lemma {:induction false} RunInv(c: Config, tr: seq<State>, ins: seq<Inputs>, k: nat)
    requires Run(c, tr, ins) && k < |tr|
    ensures Inv(c, tr[k])
  {
    hide Inv, Initial, Legal, GrantsOf, Advance, Granted, Advances;
    if k == 0 {
      InitialInv(c, tr[0]);
    } else {
      RunInv(c, tr, ins, k - 1);
      RunStep(c, tr, ins, k - 1);
      AdvanceInv(c, tr[k - 1], ins[k - 1], GrantsAt(c, tr, ins, k - 1), tr[k - 1 + 1]);
    }
  }

  // One cycle of a run.
  lemma RunStep(c: Config, tr: seq<State>, ins: seq<Inputs>, k: nat)
    requires Run(c, tr, ins) && k < |ins| && Inv(c, tr[k])
    ensures Legal(c, tr[k], ins[k])
    ensures Granted(c, tr[k], ins[k], GrantsAt(c, tr, ins, k))
    ensures Advances(c, tr[k], ins[k], GrantsAt(c, tr, ins, k), tr[k + 1])
  {
    hide Inv, Initial, Legal, GrantsOf, Advance, Granted, Advances;
    var g := GrantsAt(c, tr, ins, k);
    GrantsGranted(c, tr[k], ins[k]);
    AdvanceAdvances(c, tr[k], ins[k], g);
    assert tr[k + 1] == Step(c, tr[k], ins[k]);
  }

  // Cycle 'k' of a run: the invariant holds, the grants are as promised and the next state follows from them.
  lemma RunCycle(c: Config, tr: seq<State>, ins: seq<Inputs>, k: nat)
    requires Run(c, tr, ins) && k < |ins|
    ensures Legal(c, tr[k], ins[k]) && Inv(c, tr[k])
    ensures Granted(c, tr[k], ins[k], GrantsAt(c, tr, ins, k))
    ensures Advances(c, tr[k], ins[k], GrantsAt(c, tr, ins, k), tr[k + 1])
  {
    hide Inv, Initial, Legal, GrantsOf, Advance, Granted, Advances;
    RunInv(c, tr, ins, k);
    RunStep(c, tr, ins, k);
  }

  // Runs exist and can always go on: a CPU may hold its request.
  lemma RunStarts(c: Config) returns (s: State)
    requires c.Valid()
    ensures Run(c, [s], [])
  {
    s := State(AllOff(c.n + 1), AllOff(3 * c.n + 1), AllOff(c.n + 1), AllOff(3 * c.n),
      seq(c.geo.banks, _ => AllOff(3 * c.n + 1)), false,
      seq(c.n, _ => WpRegs(Init, NO_TAG, ZERO_WORD, 0, false)), seq(2 * c.n, _ => RInit), RESET,
      seq(c.n, _ => NO_REQUEST), seq(3 * c.n + 1, _ => 0), AllOff(c.n));
  }

  lemma RunExtends(c: Config, tr: seq<State>, ins: seq<Inputs>) returns (i: Inputs)
    requires Run(c, tr, ins)
    ensures Legal(c, tr[|ins|], i) && Run(c, tr + [Step(c, tr[|ins|], i)], ins + [i])
  {
    hide Initial, Step, PendingOk, BusifOk, BusOk, SpecialOk, LockOk, TagOk;
    RunInv(c, tr, ins, |ins|);
    var s := tr[|ins|];
    i := Inputs(0, seq(c.n, p requires 0 <= p < c.n => s.lastIn[p].(busy := s.bus.busy)),
      seq(2 * c.n, _ => RpIn(false, false, 0, BusHit(s.bus, 0), NO_TAG, ZERO_WORD, ZERO_WORD, s.bus.busy)), false,
      NO_TAG);
    assert Legal(c, s, i);
    hide Legal;
    var tr', ins' := tr + [Step(c, s, i)], ins + [i];
    assert forall k | 0 <= k < |tr| :: tr'[k] == tr[k];
    assert forall k | 0 <= k < |ins| :: ins'[k] == ins[k];
  }

  // ---------- Write port mutual exclusion ----------

  // In every cycle at most one write port works on a line, and none on a line of the set that the bus interface has
  // locked.
  ghost predicate WritersExclude(c: Config, s: State, i: Inputs)
    requires Legal(c, s, i)
  {
    && (forall p, q | 0 <= p < q < c.n :: !(Critical(s.wp[p].state) && Critical(s.wp[q].state)))
    && (BusHoldsLock(s.bus) ==>
        forall p | 0 <= p < c.n && Critical(s.wp[p].state) :: c.geo.Index(i.wp[p].adr) != c.geo.Index(s.bus.adr))
  }

  lemma CriticalIsPending(c: Config, s: State, i: Inputs, p: nat)
    requires Inv(c, s) && Legal(c, s, i) && p < c.n && Critical(s.wp[p].state)
    ensures s.linelock[p] && i.wp[p].adr == s.lastIn[p].adr
  {
    hide TagOk, SpecialOk, BusifOk, BusOk;
    assert s.pending[p];
    assert SameRequest(i.wp[p], s.lastIn[p]);
  }

  lemma InvExcludes(c: Config, s: State, i: Inputs)
    requires Inv(c, s) && Legal(c, s, i)
    ensures WritersExclude(c, s, i)
  {
    hide TagOk, SpecialOk, BusifOk, BusOk, Critical, PendingOk;
    forall p | 0 <= p < c.n && Critical(s.wp[p].state)
      ensures s.linelock[p] && i.wp[p].adr == s.lastIn[p].adr
    {
      CriticalIsPending(c, s, i, p);
    }
  }

  lemma WritePortMutex(c: Config, tr: seq<State>, ins: seq<Inputs>, k: nat)
    requires Run(c, tr, ins) && k < |ins|
    ensures Legal(c, tr[k], ins[k]) && WritersExclude(c, tr[k], ins[k])
  {
    hide Inv, Initial, Legal, GrantsOf, Advance, Granted, Advances, WritersExclude;
    RunCycle(c, tr, ins, k);
    InvExcludes(c, tr[k], ins[k]);
  }

  // The snoop unit finds at most one write port with the line lock.
  lemma SnoopFindsOneWriter(c: Config, tr: seq<State>, ins: seq<Inputs>, k: nat)
    requires Run(c, tr, ins) && k < |ins|
    ensures Legal(c, tr[k], ins[k])
    ensures var g := GrantsAt(c, tr, ins, k); forall p, q | 0 <= p < q < c.n :: !(g.linelock[p] && g.linelock[q])
  {
    hide Inv, Initial, GrantsOf, Advance, Advances, BusifGranted, TagGranted;
    RunCycle(c, tr, ins, k);
  }

  // The address of a held line lock request does not change, but for one case: a port that is given the lock while
  // its special operation is acknowledged may keep it for a new request.
  lemma LockedAddressHeld(c: Config, tr: seq<State>, ins: seq<Inputs>, k: nat, p: nat)
    requires Run(c, tr, ins) && k + 1 < |ins| && p < c.n && Legal(c, tr[k], ins[k]) && Legal(c, tr[k + 1], ins[k + 1])
    requires GrantsAt(c, tr, ins, k).linelock[p] && ins[k + 1].wp[p].adr != ins[k].wp[p].adr
    ensures tr[k].wp[p].state.SpecialWaitComplete? && !tr[k].bus.busy
    ensures Ack(tr[k].wp[p], ins[k].wp[p], WpGrants(c, ins[k], GrantsAt(c, tr, ins, k), p))
  {
    hide Inv, Initial, GrantsOf, Step, BusifGranted, TagGranted, BanksGranted, ReqLinelock, WpGrants, NextWp, Ack;
    hide BusNext, Offered, RNextState, LineLockExclusive, HasRequest;
    var s, i, g := tr[k], ins[k], GrantsAt(c, tr, ins, k);
    RunCycle(c, tr, ins, k);
    PendingAtLeast(c, s, i);
    LockAsked(c, s, i, g, p);
    AckedWithLock(s.wp[p], i.wp[p], WpGrants(c, i, g, p));
    assert tr[k + 1].pending[p] ==> SameRequest(ins[k + 1].wp[p], tr[k + 1].lastIn[p]);
  }

  lemma LockAsked(c: Config, s: State, i: Inputs, g: Grants, p: nat)
    requires Granted(c, s, i, g) && p < c.n && g.linelock[p]
    ensures ReqLinelock(s.wp[p], i.wp[p], WpGrants(c, i, g, p).bank)
  {
    hide BusifGranted, TagGranted, BanksGranted, ReqLinelock, LineLockExclusive;
    assert LinelockReqs(c, s, i, g.banks)[p];
  }

  // A port that is not in its initial state has a request.
  lemma PendingAtLeast(c: Config, s: State, i: Inputs)
    requires Inv(c, s) && Legal(c, s, i)
    ensures forall p | 0 <= p < c.n && s.wp[p].state != Init :: HasRequest(i.wp[p])
  {
    hide BusifOk, BusOk, SpecialOk, LockOk, TagOk, BanksOk;
    assert forall p | 0 <= p < c.n && s.pending[p] :: SameRequest(i.wp[p], s.lastIn[p]);
  }

  // ---------- Tags ----------

  // Line p < n: write port 'p' writes a tag; line n: the bus interface does.
  predicate WritesTag(c: Config, s: State, i: Inputs, g: Grants, p: nat)
    requires Legal(c, s, i) && GrantsSized(c, g) && p <= c.n
  {
    if p < c.n then TagWr(s.wp[p], WpGrants(c, i, g, p)) else BTagWr(s.bus)
  }

  lemma TagWriterHasLock(c: Config, s: State, i: Inputs, g: Grants, p: nat)
    requires Inv(c, s) && Granted(c, s, i, g) && p <= c.n && WritesTag(c, s, i, g, p)
    ensures g.tagw[p]
  {
    hide TagOk, SpecialOk, BusifOk, BusOk, LockOk, PendingOk, BusifGranted, LockGranted, TagGranted, TagWr, BTagWr;
    if p < c.n {
      WpHasTagw(c, s, i, g, p);
    } else {
      BusHasTagw(c, s, i, g);
    }
  }

  // Only one port writes a tag in any cycle ("multiple tag write signals asserted" cannot happen), and each tag RAM
  // port has at most one reader.
  lemma TagRamPortsExclusive(c: Config, tr: seq<State>, ins: seq<Inputs>, k: nat)
    requires Run(c, tr, ins) && k < |ins|
    ensures Legal(c, tr[k], ins[k])
    ensures var s, i, g := tr[k], ins[k], GrantsAt(c, tr, ins, k);
      && (forall p, q | 0 <= p < q <= c.n :: !(WritesTag(c, s, i, g, p) && WritesTag(c, s, i, g, q)))
      && (forall p, q | 0 <= p < q <= 3 * c.n && CpuOf(p, c.n) == CpuOf(q, c.n) :: !(g.tagr[p] && g.tagr[q]))
  {
    hide Inv, Initial, GrantsOf, Advance, Advances, BusifGranted, LockGranted, WritesTag, GrantsKept;
    RunCycle(c, tr, ins, k);
    var s, i, g := tr[k], ins[k], GrantsAt(c, tr, ins, k);
    forall p | 0 <= p <= c.n && WritesTag(c, s, i, g, p)
      ensures g.tagw[p]
    {
      TagWriterHasLock(c, s, i, g, p);
    }
  }

  // Read port 'p' reads a tag that it is going to use, or still uses one.
  predicate UsesTag(c: Config, s: State, i: Inputs, g: Grants, p: nat)
    requires Legal(c, s, i) && GrantsSized(c, g) && p < 2 * c.n
  {
    HoldsTag(s.rp[p]) || HoldsTag(RNextState(s.rp[p], i.rp[p], RpGrants(c, i, g, p)))
  }

  lemma TagUserHasLock(c: Config, s: State, i: Inputs, g: Grants, p: nat)
    requires Inv(c, s) && Granted(c, s, i, g) && p < 2 * c.n && UsesTag(c, s, i, g, p)
    ensures g.tagr[p]
  {
    hide TagOk, SpecialOk, BusifOk, BusOk, LockOk, PendingOk, BusifGranted, LockGranted, TagGranted, HoldsTag;
    hide RNextState;
    if HoldsTag(s.rp[p]) {
      RpHasTagr(c, s, i, g, p);
    }
    RpSamplesTag(s.rp[p], i.rp[p], RpGrants(c, i, g, p));
  }

  // No tag at all is written while a read port uses one.
  lemma TagsStableWhileUsed(c: Config, tr: seq<State>, ins: seq<Inputs>, k: nat, p: nat)
    requires Run(c, tr, ins) && k < |ins| && p < 2 * c.n
    requires Legal(c, tr[k], ins[k]) && UsesTag(c, tr[k], ins[k], GrantsAt(c, tr, ins, k), p)
    ensures forall w | 0 <= w <= c.n :: !WritesTag(c, tr[k], ins[k], GrantsAt(c, tr, ins, k), w)
  {
    hide Inv, Initial, GrantsOf, Advance, Advances, BusifGranted, LockGranted, WritesTag, GrantsKept, UsesTag;
    RunCycle(c, tr, ins, k);
    var s, i, g := tr[k], ins[k], GrantsAt(c, tr, ins, k);
    TagUserHasLock(c, s, i, g, p);
    forall w | 0 <= w <= c.n
      ensures !WritesTag(c, s, i, g, w)
    {
      if WritesTag(c, s, i, g, w) {
        TagWriterHasLock(c, s, i, g, w);
      }
    }
  }

  // A read port that reads a bank on a hit has used its tag in every cycle since it sampled it: it enters a
  // tag-holding state from a cycle with a tag read grant, and leaves it with the bank grant.
  lemma BankReadEndsTagUse(q: RpState, j: RpIn, h: RpGnt)
    ensures RNextState(q, j, h).RReadBank? ==> HoldsTag(q) && h.bank && j.tag.valid
    ensures HoldsTag(q) && !HoldsTag(RNextState(q, j, h)) && j.tag.valid ==> h.bank && RAck(q, j, h)
    ensures HoldsTag(RNextState(q, j, h)) && !HoldsTag(q) ==> h.tagr
  {}

  lemma TagUseStep(c: Config, tr: seq<State>, ins: seq<Inputs>, k: nat, p: nat)
    requires Run(c, tr, ins) && k < |ins| && p < 2 * c.n && |tr[k + 1].rp| == 2 * c.n && HoldsTag(tr[k + 1].rp[p])
    ensures Legal(c, tr[k], ins[k]) && |tr[k].rp| == 2 * c.n
    ensures UsesTag(c, tr[k], ins[k], GrantsAt(c, tr, ins, k), p)
    ensures HoldsTag(tr[k].rp[p]) || GrantsAt(c, tr, ins, k).tagr[p]
  {
    hide Inv, Granted, GrantsOf, Step, RNextState, HoldsTag, NextWp, BusNext, Offered, Ack, HasRequest, Initial;
    RunCycle(c, tr, ins, k);
    BankReadEndsTagUse(tr[k].rp[p], ins[k].rp[p], RpGrants(c, ins[k], GrantsAt(c, tr, ins, k), p));
  }

  // A read port that holds a tag has sampled it in an earlier cycle, with the grant, and used it ever since.
  lemma {:induction false} TagUseBegins(c: Config, tr: seq<State>, ins: seq<Inputs>, k: nat, p: nat) returns (k0: nat)
    requires Run(c, tr, ins) && k < |tr| && p < 2 * c.n && |tr[k].rp| == 2 * c.n && HoldsTag(tr[k].rp[p])
    ensures k0 < k && Legal(c, tr[k0], ins[k0]) && !HoldsTag(tr[k0].rp[p]) && GrantsAt(c, tr, ins, k0).tagr[p]
    ensures forall j | k0 <= j < k ::
      Legal(c, tr[j], ins[j]) && UsesTag(c, tr[j], ins[j], GrantsAt(c, tr, ins, j), p)
  {
    hide GrantsOf, Step, Legal, UsesTag, GrantsAt;
    if k == 0 {
      assert false;
    } else {
      TagUseStep(c, tr, ins, k - 1, p);
      k0 := k - 1;
      if HoldsTag(tr[k - 1].rp[p]) {
        k0 := TagUseBegins(c, tr, ins, k - 1, p);
      }
    }
  }

  // A read hit is not torn: when the bank read of port 'p' is granted in cycle 'k', the port has sampled its tag in an
  // earlier cycle, and from that cycle on, up to and including 'k', no tag has been written by anyone.
  lemma ReadHitNotTorn(c: Config, tr: seq<State>, ins: seq<Inputs>, k: nat, p: nat) returns (k0: nat)
    requires Run(c, tr, ins) && k < |ins| && p < 2 * c.n && Legal(c, tr[k], ins[k])
    requires RNextState(tr[k].rp[p], ins[k].rp[p], RpGrants(c, ins[k], GrantsAt(c, tr, ins, k), p)).RReadBank?
    ensures k0 < k && Legal(c, tr[k0], ins[k0]) && !HoldsTag(tr[k0].rp[p]) && GrantsAt(c, tr, ins, k0).tagr[p]
    ensures forall j, w | k0 <= j <= k && 0 <= w <= c.n ::
      Legal(c, tr[j], ins[j]) && !WritesTag(c, tr[j], ins[j], GrantsAt(c, tr, ins, j), w)
  {
    hide Legal, Initial, Step, HoldsTag, RNextState, WritesTag, GrantsOf, RpGrants, Inv, Granted, Advances;
    PortsSized(c, tr[k], ins[k]);
    BankReadEndsTagUse(tr[k].rp[p], ins[k].rp[p], RpGrants(c, ins[k], GrantsAt(c, tr, ins, k), p));
    k0 := TagUseBegins(c, tr, ins, k, p);
    forall j | k0 <= j <= k
      ensures Legal(c, tr[j], ins[j])
      ensures forall w | 0 <= w <= c.n :: !WritesTag(c, tr[j], ins[j], GrantsAt(c, tr, ins, j), w)
    {
      TagsStableWhileUsed(c, tr, ins, j, p);
    }
  }

  lemma PortsSized(c: Config, s: State, i: Inputs)
    requires Legal(c, s, i)
    ensures c.Valid() && |s.rp| == |i.rp| == 2 * c.n && |s.wp| == |i.wp| == c.n
  {}

  // ---------- Banks ----------

  // In every cycle of every run only one write port asks for banks.
  lemma OneBankWriter(c: Config, tr: seq<State>, ins: seq<Inputs>, k: nat)
    requires Run(c, tr, ins) && k < |ins|
    ensures Legal(c, tr[k], ins[k])
    ensures forall p, q | 0 <= p < q < c.n ::
      !(ReqBank(tr[k].wp[p], ins[k].wp[p]) && ReqBank(tr[k].wp[q], ins[k].wp[q]))
  {
    hide Initial, GrantsOf, Step, Advances, Granted, ReqBank, PendingOk, BusifOk, BusOk, SpecialOk, TagOk, BanksOk;
    RunCycle(c, tr, ins, k);
    forall p, q | 0 <= p < q < c.n
      ensures !(ReqBank(tr[k].wp[p], ins[k].wp[p]) && ReqBank(tr[k].wp[q], ins[k].wp[q]))
    {
      hide LockOk, Legal;
      OneWriterAsks(c, tr[k], ins[k], p, q);
    }
  }

  // In every cycle of every run, for any number of CPUs and without assuming anything about the addresses: only
  // requests for a bank are granted; the grants of a RAM port agree on one address and include one writer at most; and
  // a held grant is never revoked.
  lemma BankGrantsSafe(c: Config, tr: seq<State>, ins: seq<Inputs>, k: nat, b: nat)
    requires Run(c, tr, ins) && k < |ins| && b < c.geo.banks
    ensures Legal(c, tr[k], ins[k]) && |tr[k].banks| == c.geo.banks && |tr[k].banks[b]| == 3 * c.n + 1
    ensures var req, g := BankReqs(c, tr[k], ins[k], b), GrantsAt(c, tr, ins, k).banks[b];
      && BankConsistent(g, WayIndices(c, tr[k], ins[k]), c.n)
      && (forall j | 0 <= j <= 3 * c.n :: g[j] ==> req[j])
      && (forall j | 0 <= j <= 3 * c.n :: tr[k].banks[b][j] && req[j] ==> g[j])
  {
    hide Initial, GrantsOf, Step, Advances, Inv, BusifGranted, LockGranted, TagGranted, BankConsistent, BankReqs;
    hide WayIndices;
    RunCycle(c, tr, ins, k);
  }

  // Write port or bus interface 'j' holds its request for a bank.
  predicate AsksAgain(c: Config, s: State, i: Inputs, t: State, i': Inputs, b: nat, j: nat)
    requires Legal(c, s, i) && Legal(c, t, i') && 2 * c.n <= j <= 3 * c.n
  {
    BankReqs(c, s, i, b)[j] && BankReqs(c, t, i', b)[j]
  }

  lemma WpHoldsWay(r: WpRegs, i: WpIn, g: WpGnt, stb: bool, adr: Adr, i': WpIn)
    requires ReqBank(r, i) && ReqBank(NextRegs(r, i, g, stb, adr), i')
    ensures TagOut(NextRegs(r, i, g, stb, adr), i').way == TagOut(r, i).way
  {
    WpAfterBank(r, i, g, stb, adr);
  }

  // As long as a write port or the bus interface asks for a bank, its way and index address does not change. (A read
  // port that has been granted a bank does not ask in the next cycle.)
  lemma BankAddressHeld(c: Config, tr: seq<State>, ins: seq<Inputs>, k: nat, b: nat, j: nat)
    requires Run(c, tr, ins) && k + 1 < |ins| && b < c.geo.banks && 2 * c.n <= j <= 3 * c.n
    requires Legal(c, tr[k], ins[k]) && Legal(c, tr[k + 1], ins[k + 1])
    requires AsksAgain(c, tr[k], ins[k], tr[k + 1], ins[k + 1], b, j)
    ensures WayIndices(c, tr[k + 1], ins[k + 1])[j] == WayIndices(c, tr[k], ins[k])[j]
  {
    hide Initial, GrantsOf, Step, Inv, Granted, ReqBank, BReqBank, NextRegs, TagOut, Ack, BusNext, Offered, RNextState;
    hide Geometry.WayIndex, WpGrants, HasRequest;
    var s, i, g, t, i' := tr[k], ins[k], GrantsAt(c, tr, ins, k), tr[k + 1], ins[k + 1];
    RunCycle(c, tr, ins, k);
    if j < 3 * c.n {
      var p, w := j - 2 * c.n, LockOwner(c, g.linelock);
      assert t.wp[p] == NextWp(c, s, i, g, p);
      WpHoldsWay(s.wp[p], i.wp[p], WpGrants(c, i, g, p), w >= 0 && w != p, if w >= 0 then i.wp[w].adr else 0, i'.wp[p]);
      RunCycle(c, tr, ins, k + 1);
      AddressWhileAsking(c, t, i', p);
    } else {
      BusAfterBank(s.bus, c.geo, Offered(c, s, i, g.busif), BusGrants(c, g), b);
    }
  }

  lemma AddressWhileAsking(c: Config, s: State, i: Inputs, p: nat)
    requires Inv(c, s) && Legal(c, s, i) && p < c.n && ReqBank(s.wp[p], i.wp[p])
    ensures i.wp[p].adr == s.lastIn[p].adr
  {
    BankUserIsCritical(s.wp[p], i.wp[p]);
    CriticalIsPending(c, s, i, p);
  }

  // ---------- Back-off ----------

  // The resources in the order in which they must be acquired.
  datatype Resource = BusInterface | LineLock | Tag | Bank {
    function Rank(): nat {
      match this case BusInterface => 0 case LineLock => 1 case Tag => 2 case Bank => 3
    }
  }

  predicate Requests(r: WpRegs, i: WpIn, gntBank: bool, x: Resource) {
    match x
    case BusInterface => ReqBusif(r, i)
    case LineLock => ReqLinelock(r, i, gntBank)
    case Tag => ReqTagr(r, i) || ReqTagw(r)
    case Bank => ReqBank(r, i)
  }

  predicate Holds(g: WpGnt, x: Resource) {
    match x
    case BusInterface => g.busif
    case LineLock => g.linelock
    case Tag => g.tagr || g.tagw
    case Bank => g.bank
  }

  predicate Waits(r: WpRegs, i: WpIn, g: WpGnt, x: Resource) {
    match x
    case BusInterface => ReqBusif(r, i) && !g.busif
    case LineLock => ReqLinelock(r, i, g.bank) && !g.linelock
    case Tag => (ReqTagr(r, i) && !g.tagr) || (ReqTagw(r) && !g.tagw)
    case Bank => ReqBank(r, i) && !g.bank
  }

  // What the grants to one write port respect in a reachable state.
  ghost predicate PortGranted(r: WpRegs, i: WpIn, g: WpGnt) {
    && (g.linelock ==> ReqLinelock(r, i, g.bank)) && (g.tagr ==> ReqTagr(r, i)) && (g.tagw ==> ReqTagw(r))
    && (g.busif ==> ReqBusif(r, i)) && (g.bank ==> ReqBank(r, i))
    && (OwnsBusif(r.state) ==> g.busif)
    && (Critical(r.state) && ReqLinelock(r, i, g.bank) ==> g.linelock)
    && (SecondTagCycle(r.state) ==> g.tagw)
    && (r.state != Init ==> HasRequest(i))
  }

  // A port that waits for a resource while it holds a later one is not acknowledged, and drops the later one.
  lemma PortBacksOff(r: WpRegs, i: WpIn, g: WpGnt, r': WpRegs, i': WpIn, gntBank': bool, x: Resource, y: Resource)
    requires PortGranted(r, i, g) && r'.state == NextState(r, i, g)
    requires Waits(r, i, g, x) && Holds(g, y) && x.Rank() < y.Rank()
    ensures HasRequest(i) && !Ack(r, i, g)
    ensures SameRequest(i', i) ==> !Requests(r', i', gntBank', y)
  {}

  lemma PortIsGranted(c: Config, s: State, i: Inputs, g: Grants, p: nat)
    requires Inv(c, s) && Granted(c, s, i, g) && p < c.n
    requires WpGrants(c, i, g, p).bank ==> ReqBank(s.wp[p], i.wp[p])
    ensures PortGranted(s.wp[p], i.wp[p], WpGrants(c, i, g, p))
  {
    hide SpecialOk, BusOk, TagLockExclusive, ReqBank, ReqTagr, ReqTagw, ReqBusif, ReqLinelock, OwnsBusif;
    hide SecondTagCycle, BanksOk, BanksGranted, WayIndices;
    hide LineLockExclusive, OneHot, WorkIndices, Critical, BReqLinelock, BusHoldsLock, HoldsTag, ROwnsBusif, BTagWr;
    var r, j, h := s.wp[p], i.wp[p], WpGrants(c, i, g, p);
    WpWritesTag(r, j, h);
    assert TagrReqs(c, s, i)[2 * c.n + p] == ReqTagr(r, j);
    assert TagwReqs(c, s, i)[p] == ReqTagw(r);
    assert BusifReqs(c, s, i)[2 * c.n + p] == ReqBusif(r, j);
    assert LinelockReqs(c, s, i, g.banks)[p] == ReqLinelock(r, j, h.bank);
    assert s.pending[p] ==> SameRequest(j, s.lastIn[p]);
  }

  // Only requests for a bank are granted.
  lemma BankGrantsAsked(c: Config, s: State, i: Inputs, g: Grants)
    requires Granted(c, s, i, g)
    ensures forall p | 0 <= p < c.n :: WpGrants(c, i, g, p).bank ==> ReqBank(s.wp[p], i.wp[p])
    ensures forall p | 0 <= p < 2 * c.n :: RpGrants(c, i, g, p).bank ==> RReqBank(s.rp[p], i.rp[p])
  {
    hide ReqBank, RReqBank, BusifGranted, LockGranted, TagGranted, BankConsistent, WayIndices;
    forall b, k | 0 <= b < c.geo.banks && 0 <= k <= 3 * c.n && g.banks[b][k]
      ensures BankReqs(c, s, i, b)[k]
    {
    }
  }

  // Resources must be acquired in the order bus interface, line lock, tag, bank. Over all runs: a write port that
  // waits for one of them while it holds a later one no longer asks for the later one in the next cycle.
  lemma WritePortsBackOff(c: Config, tr: seq<State>, ins: seq<Inputs>, k: nat, p: nat, x: Resource, y: Resource,
    gntBank: bool)
    requires Run(c, tr, ins) && k + 1 < |ins| && p < c.n && x.Rank() < y.Rank()
    requires Legal(c, tr[k], ins[k])
    requires Waits(tr[k].wp[p], ins[k].wp[p], WpGrants(c, ins[k], GrantsAt(c, tr, ins, k), p), x)
    requires Holds(WpGrants(c, ins[k], GrantsAt(c, tr, ins, k), p), y)
    ensures !Requests(tr[k + 1].wp[p], ins[k + 1].wp[p], gntBank, y)
  {
    hide Inv, Initial, GrantsOf, Step, Granted, Waits, Holds, Requests, PortGranted, WpGrants, NextState;
    hide HasRequest, Ack, BusNext, Offered, RNextState;
    var s, i, g, t := tr[k], ins[k], GrantsAt(c, tr, ins, k), tr[k + 1];
    RunCycle(c, tr, ins, k);
    RunCycle(c, tr, ins, k + 1);
    BankGrantsAsked(c, s, i, g);
    PortIsGranted(c, s, i, g, p);
    PortBacksOff(s.wp[p], i.wp[p], WpGrants(c, i, g, p), t.wp[p], ins[k + 1].wp[p], gntBank, x, y);
    assert t.pending[p];
    assert SameRequest(ins[k + 1].wp[p], t.lastIn[p]);
  }

  predicate RRequests(q: RpState, j: RpIn, x: Resource) {
    match x
    case BusInterface => RReqBusif(q, j)
    case LineLock => false
    case Tag => RReqTagr(q, j)
    case Bank => RReqBank(q, j)
  }

  predicate RHolds(h: RpGnt, x: Resource) {
    match x
    case BusInterface => h.busif
    case LineLock => false
    case Tag => h.tagr
    case Bank => h.bank
  }

  ghost predicate ReaderGranted(q: RpState, j: RpIn, h: RpGnt) {
    && (h.tagr ==> RReqTagr(q, j)) && (h.bank ==> RReqBank(q, j)) && (h.busif ==> RReqBusif(q, j))
    && (HoldsTag(q) ==> h.tagr) && (ROwnsBusif(q) ==> h.busif)
  }

  lemma ReaderBacksOff(q: RpState, j: RpIn, h: RpGnt, j': RpIn, x: Resource, y: Resource)
    requires ReaderGranted(q, j, h) && x.Rank() < y.Rank()
    requires RRequests(q, j, x) && !RHolds(h, x) && RHolds(h, y)
    ensures !(RRequests(RNextState(q, j, h), j', x) && RRequests(RNextState(q, j, h), j', y))
    ensures j'.rd == j.rd && j'.direct == j.direct ==> !RRequests(RNextState(q, j, h), j', y)
  {}

  lemma ReaderIsGranted(c: Config, s: State, i: Inputs, g: Grants, p: nat)
    requires Inv(c, s) && Granted(c, s, i, g) && p < 2 * c.n
    requires RpGrants(c, i, g, p).bank ==> RReqBank(s.rp[p], i.rp[p])
    ensures ReaderGranted(s.rp[p], i.rp[p], RpGrants(c, i, g, p))
  {
    hide SpecialOk, BusOk, LockOk, LockGranted, PendingOk, RReqBank, RReqBusif, RReqTagr, HoldsTag, ROwnsBusif;
    RpSamplesTag(s.rp[p], i.rp[p], RpGrants(c, i, g, p));
    assert TagrReqs(c, s, i)[p] == RReqTagr(s.rp[p], i.rp[p]);
    assert BusifReqs(c, s, i)[p] == RReqBusif(s.rp[p], i.rp[p]);
  }

  // A read port that waits for a resource while it holds a later one does not ask for the later one in the next cycle
  // if its CPU holds the request, and does not ask for both whatever its CPU wants then.
  lemma ReadPortsBackOff(c: Config, tr: seq<State>, ins: seq<Inputs>, k: nat, p: nat, x: Resource, y: Resource)
    requires Run(c, tr, ins) && k + 1 < |ins| && p < 2 * c.n && x.Rank() < y.Rank()
    requires Legal(c, tr[k], ins[k]) && |ins[k + 1].rp| == 2 * c.n && |tr[k + 1].rp| == 2 * c.n
    requires RRequests(tr[k].rp[p], ins[k].rp[p], x) && !RHolds(RpGrants(c, ins[k], GrantsAt(c, tr, ins, k), p), x)
    requires RHolds(RpGrants(c, ins[k], GrantsAt(c, tr, ins, k), p), y)
    ensures !(RRequests(tr[k + 1].rp[p], ins[k + 1].rp[p], x) && RRequests(tr[k + 1].rp[p], ins[k + 1].rp[p], y))
    ensures ins[k + 1].rp[p].rd == ins[k].rp[p].rd && ins[k + 1].rp[p].direct == ins[k].rp[p].direct ==>
      !RRequests(tr[k + 1].rp[p], ins[k + 1].rp[p], y)
  {
    hide Inv, Initial, GrantsOf, Step, Granted, RHolds, RRequests, ReaderGranted, RpGrants, RNextState, NextWp;
    hide HasRequest, Ack, BusNext, Offered;
    var s, i, g := tr[k], ins[k], GrantsAt(c, tr, ins, k);
    RunCycle(c, tr, ins, k);
    BankGrantsAsked(c, s, i, g);
    ReaderIsGranted(c, s, i, g, p);
    ReaderBacksOff(s.rp[p], i.rp[p], RpGrants(c, i, g, p), ins[k + 1].rp[p], x, y);
  }
}
