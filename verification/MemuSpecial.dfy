// Whom the bus interface works for, and whether the line it works on is locked. A write port may start a writeback,
// flush or invalidation without the line lock.

module MemuSpecial {
  import opened Address
  import opened ArbiterSpec
  import opened BankArbiter
  import opened WritePortSpec
  import opened ReadPortSpec
  import opened BusIfSpec
  import opened MemuSpec
  import opened MemuProofs
  import opened MemuBanks
  import opened MemuTags
  import opened MemuSafety

  predicate CacheOp(op: BusOp) {
    op == ReplaceLine || op == Writeback || op == Flush || op == Invalidate
  }

  // The bus interface is between the first request for the tag and the end of its operation.
  predicate Working(b: BusRegs) {
    !(b.pc.Idle? || b.pc.DirectWait? || b.pc.DirectDone? || b.pc.LockWait? || b.pc.Done?)
  }

  predicate IsReplacing(s: WpState) {
    s.Replace? || s.ReplaceWaitBusif?
  }

  // The bus interface works on the line of write port 'p', in an operation that the port waits for.
  ghost predicate Serves(c: Config, s: State, p: nat)
    requires c.Valid() && Sized(c, s) && p < c.n
  {
    && s.busif[2 * c.n + p]
    && c.geo.Index(s.bus.adr) == c.geo.Index(s.lastIn[p].adr) && c.geo.Tag(s.bus.adr) == c.geo.Tag(s.lastIn[p].adr)
    && (if s.bus.op == ReplaceLine then IsReplacing(s.wp[p].state) else IsSpecial(s.wp[p].state))
  }

  // An operation taken over from a write port serves that port; only operations on the cache touch it.
  ghost predicate ServesOk(c: Config, s: State)
    requires c.Valid() && Sized(c, s)
  {
    && (Working(s.bus) || s.bus.pc.LockWait? ==> s.bus.busy && CacheOp(s.bus.op))
    && (s.bus.busy && s.bus.noLinelock && CacheOp(s.bus.op) ==> exists p :: 0 <= p < c.n && Serves(c, s, p))
  }

  // ---------- One cycle ----------

  lemma WorkingStep(b: BusRegs, geo: Geometry, i: BusIn, g: BusGnt)
    requires geo.Valid() && |g.bank| == geo.banks && BusSized(b, geo) && BusOk(b)
    requires Working(b) || b.pc.LockWait? ==> b.busy && CacheOp(b.op)
    ensures var n := BusNext(b, geo, i, g); Working(n) || n.pc.LockWait? ==> n.busy && CacheOp(n.op)
  {}

  // A busy bus interface keeps to its operation and its line.
  lemma BusyStep(b: BusRegs, geo: Geometry, i: BusIn, g: BusGnt)
    requires geo.Valid() && |g.bank| == geo.banks && BusSized(b, geo) && BusOk(b) && b.busy
    ensures var n := BusNext(b, geo, i, g); n.busy ==> n.noLinelock == b.noLinelock && (n.op == b.op || !CacheOp(n.op))
    ensures geo.Index(NextAdr(b, geo, i)) == geo.Index(b.adr) && geo.Tag(NextAdr(b, geo, i)) == geo.Tag(b.adr)
  {
    NextWordSameLine(geo, b.adr);
    WordSameLine(geo, b.adr);
  }

  lemma LatchStep(b: BusRegs, geo: Geometry, i: BusIn, g: BusGnt)
    requires geo.Valid() && |g.bank| == geo.banks && BusSized(b, geo) && BusOk(b) && !b.busy
    ensures var n := BusNext(b, geo, i, g);
      n.busy ==> i.op != Nothing && n.op == i.op && n.noLinelock == i.noLinelock && n.adr == i.adr
  {}

  lemma ServedPort(r: WpRegs, i: WpIn, g: WpGnt)
    ensures i.busy && IsReplacing(r.state) ==> IsReplacing(NextState(r, i, g))
    ensures i.busy && IsSpecial(r.state) ==> IsSpecial(NextState(r, i, g))
    ensures IsReplacing(r.state) || IsSpecial(r.state) ==> OwnsBusif(r.state) && r.state != Init
    ensures !i.busy && CacheOp(BusifOp(r, i)) ==>
      if BusifOp(r, i) == ReplaceLine then IsReplacing(NextState(r, i, g)) else IsSpecial(NextState(r, i, g))
  {}

  lemma ServesGoesOn(c: Config, s: State, i: Inputs, g: Grants, t: State, p: nat)
    requires Inv(c, s) && Granted(c, s, i, g) && Advances(c, s, i, g, t) && p < c.n && Serves(c, s, p)
    requires s.bus.busy && t.bus.busy && CacheOp(t.bus.op)
    ensures Serves(c, t, p) && t.bus.noLinelock == s.bus.noLinelock
  {
    hide LockOk, TagOk, BanksOk, SpecialOk, LockGranted, TagGranted, BanksGranted, BusNext, NextState, OwnsBusif;
    hide IsReplacing, IsSpecial, CacheOp, Ack, HasRequest, WayIndices, Offered, RNextState, NextAdr, BusOk, WpGrants;
    hide Geometry.Index, Geometry.Tag, BusGrants, LockOwner;
    ServedPort(s.wp[p], i.wp[p], WpGrants(c, i, g, p));
    BusyStep(s.bus, c.geo, Offered(c, s, i, g.busif), BusGrants(c, g));
    assert t.bus.adr == NextAdr(s.bus, c.geo, Offered(c, s, i, g.busif)) by {
      AdrNext(s.bus, c.geo, Offered(c, s, i, g.busif), BusGrants(c, g));
    }
    assert s.pending[p] && SameRequest(i.wp[p], s.lastIn[p]);
    assert t.wp[p] == NextWp(c, s, i, g, p);
  }

  lemma AdrNext(b: BusRegs, geo: Geometry, i: BusIn, g: BusGnt)
    requires geo.Valid() && |g.bank| == geo.banks && BusSized(b, geo)
    ensures BusNext(b, geo, i, g).adr == NextAdr(b, geo, i)
  {}

  // An operation that is to run without the line lock is offered by a write port.
  lemma OfferedByWriter(c: Config, s: State, i: Inputs, busif: Lines) returns (p: nat)
    requires Legal(c, s, i) && |busif| == 3 * c.n && Offered(c, s, i, busif).noLinelock
    ensures p < c.n && busif[2 * c.n + p]
    ensures var o := Offered(c, s, i, busif); o.op == BusifOp(s.wp[p], i.wp[p]) && o.adr == i.wp[p].adr
  {
    hide BusifOp, RBusifOp;
    p := LastSet(busif, 3 * c.n) - 2 * c.n;
  }

  lemma ServesBegins(c: Config, s: State, i: Inputs, g: Grants, t: State)
    requires Inv(c, s) && Granted(c, s, i, g) && Advances(c, s, i, g, t)
    requires !s.bus.busy && t.bus.busy && t.bus.noLinelock && CacheOp(t.bus.op)
    ensures exists p :: 0 <= p < c.n && Serves(c, t, p)
  {
    hide LockOk, TagOk, BanksOk, SpecialOk, Granted, BusNext, NextState, OwnsBusif, Offered;
    hide IsReplacing, IsSpecial, CacheOp, Ack, HasRequest, WayIndices, RNextState, NextAdr, WpGrants, BusifOp;
    hide Geometry.Index, Geometry.Tag, RBusifOp, PendingOk, BusifOk, BusGrants, LockOwner;
    LatchStep(s.bus, c.geo, Offered(c, s, i, g.busif), BusGrants(c, g));
    var p := OfferedByWriter(c, s, i, g.busif);
    ServedPort(s.wp[p], i.wp[p], WpGrants(c, i, g, p));
    assert t.wp[p] == NextWp(c, s, i, g, p);
    assert Serves(c, t, p);
  }

  lemma AdvanceServes(c: Config, s: State, i: Inputs, g: Grants, t: State)
    requires Inv(c, s) && Granted(c, s, i, g) && Advances(c, s, i, g, t) && ServesOk(c, s)
    ensures ServesOk(c, t)
  {
    hide LockOk, TagOk, BanksOk, SpecialOk, PendingOk, BusifOk, Granted, BusNext, NextWp, RNextState, Offered, Serves;
    hide CacheOp, Working;
    WorkingStep(s.bus, c.geo, Offered(c, s, i, g.busif), BusGrants(c, g));
    if t.bus.busy && t.bus.noLinelock && CacheOp(t.bus.op) {
      if s.bus.busy {
        BusyStep(s.bus, c.geo, Offered(c, s, i, g.busif), BusGrants(c, g));
        var p :| 0 <= p < c.n && Serves(c, s, p);
        ServesGoesOn(c, s, i, g, t, p);
      } else {
        ServesBegins(c, s, i, g, t);
      }
    }
  }

  lemma {:induction false} RunServes(c: Config, tr: seq<State>, ins: seq<Inputs>, k: nat)
    requires Run(c, tr, ins) && k < |tr|
    ensures c.Valid() && Sized(c, tr[k]) && ServesOk(c, tr[k])
  {
    hide Inv, Initial, GrantsOf, Step, Granted, Advances, Legal, ServesOk;
    if k == 0 {
      InitialServes(c, tr[0]);
    } else {
      RunServes(c, tr, ins, k - 1);
      RunCycle(c, tr, ins, k - 1);
      AdvanceServes(c, tr[k - 1], ins[k - 1], GrantsAt(c, tr, ins, k - 1), tr[k - 1 + 1]);
      AdvancedSized(c, tr[k - 1], ins[k - 1], GrantsAt(c, tr, ins, k - 1), tr[k - 1 + 1]);
    }
  }

  lemma InitialServes(c: Config, s: State)
    requires Initial(c, s)
    ensures c.Valid() && Sized(c, s) && ServesOk(c, s)
  {}

  lemma AdvancedSized(c: Config, s: State, i: Inputs, g: Grants, t: State)
    requires Advances(c, s, i, g, t)
    ensures c.Valid() && Sized(c, t)
  {}

  // ---------- The line lock of a special operation ----------

  // Write port 'p' asks for the line lock and no write port gets it: the bus interface has it, for the same set.
  lemma LockBlocked(c: Config, s: State, i: Inputs, p: nat)
    requires Legal(c, s, i) && p < c.n
    requires LinelockReqs(c, s, i, GrantsOf(c, s, i).banks)[p]
    requires forall q | 0 <= q < c.n :: !GrantsOf(c, s, i).linelock[q]
    ensures GrantsOf(c, s, i).linelock[c.n] && c.geo.Index(i.wp[p].adr) == c.geo.Index(s.bus.adr)
  {
    hide Geometry.Index, LineLockGrants, TagReadGrants, TagWriteGrants, BankGrants, BusIfGrants, LinelockReqs, TagrReqs;
    hide TagwReqs, BusifReqs, BankReqs, WayIndices;
    var g := GrantsOf(c, s, i);
    assert NoneSet(g.linelock[..c.n]);
    LineLockWorks(s.linelock, LinelockReqs(c, s, i, g.banks), WorkIndices(c, s, i), i.prio, p);
  }

  lemma SpecialAsks(r: WpRegs, i: WpIn, g: WpGnt)
    ensures IsSpecial(r.state) ==> ReqLinelock(r, i, g.bank)
    ensures r.state == Init && NextState(r, i, g) == Special ==> ReqLinelock(r, i, g.bank) && g.busif && !i.busy
    ensures IsSpecial(NextState(r, i, g)) ==> IsSpecial(r.state) || (r.state == Init && NextState(r, i, g) == Special)
  {}

  // Write port 'p' starts a special operation in cycle 'k'.
  predicate StartsSpecial(c: Config, tr: seq<State>, k: nat, p: nat)
    requires k + 1 < |tr| && p < |tr[k].wp| && p < |tr[k + 1].wp|
  {
    tr[k].wp[p].state == Init && tr[k + 1].wp[p].state == Special
  }

  // Some write port other than 'p' is granted the line lock.
  ghost predicate OtherGranted(c: Config, g: Grants, p: nat)
    requires GrantsSized(c, g)
  {
    exists q :: 0 <= q < c.n && q != p && g.linelock[q]
  }

  // The bus interface still has the lock of its last operation, for the set that port 'p' asks for.
  predicate JustDone(c: Config, s: State, i: Inputs, g: Grants, p: nat)
    requires Legal(c, s, i) && GrantsSized(c, g) && p < c.n
  {
    s.bus.pc.Done? && g.linelock[c.n] && c.geo.Index(i.wp[p].adr) == c.geo.Index(s.bus.adr)
  }

  // In the cycle in which a port starts a special operation it has the line lock, unless another write port has it or
  // the bus interface has not released it yet.
  lemma StartLockedIff(c: Config, tr: seq<State>, ins: seq<Inputs>, k: nat, p: nat)
    requires Run(c, tr, ins) && k < |ins| && p < c.n && Legal(c, tr[k], ins[k])
    requires |tr[k + 1].wp| == c.n && StartsSpecial(c, tr, k, p)
    ensures var g := GrantsAt(c, tr, ins, k);
      g.linelock[p] <==> !OtherGranted(c, g, p) && !JustDone(c, tr[k], ins[k], g, p)
  {
    hide Inv, Initial, GrantsOf, Step, BusifGranted, TagGranted, BanksGranted, ReqLinelock, WpGrants, NextState;
    hide BusNext;
    hide Offered, RNextState, HasRequest, Ack, WayIndices, LockOwner, BReqLinelock;
    var s, i, g := tr[k], ins[k], GrantsAt(c, tr, ins, k);
    RunCycle(c, tr, ins, k);
    assert tr[k + 1].wp[p] == NextWp(c, s, i, g, p);
    SpecialAsks(s.wp[p], i.wp[p], WpGrants(c, i, g, p));
    LockRequested(c, s, i, g, p);
    if !g.linelock[p] && !OtherGranted(c, g, p) {
      LockBlocked(c, s, i, p);
      IdleHoldsDone(c, s, i, g);
    }
  }

  lemma LockRequested(c: Config, s: State, i: Inputs, g: Grants, p: nat)
    requires Legal(c, s, i) && GrantsSized(c, g) && p < c.n && ReqLinelock(s.wp[p], i.wp[p], WpGrants(c, i, g, p).bank)
    ensures LinelockReqs(c, s, i, g.banks)[p]
  {
    hide ReqLinelock, BReqLinelock;
  }

  lemma IdleHoldsDone(c: Config, s: State, i: Inputs, g: Grants)
    requires Inv(c, s) && Granted(c, s, i, g) && g.linelock[c.n] && !s.bus.busy
    ensures s.bus.pc.Done?
  {
    hide PendingOk, BusifOk, SpecialOk, LockOk, TagOk, BanksOk, BusifGranted, TagGranted, BanksGranted;
    hide LineLockExclusive;
    assert LinelockReqs(c, s, i, g.banks)[c.n] == BReqLinelock(s.bus);
  }

  // In every further cycle of the operation it has the lock exactly if no other write port has it.
  lemma SpecialLockedIff(c: Config, tr: seq<State>, ins: seq<Inputs>, k: nat, p: nat)
    requires Run(c, tr, ins) && k < |ins| && p < c.n && Legal(c, tr[k], ins[k]) && IsSpecial(tr[k].wp[p].state)
    ensures GrantsAt(c, tr, ins, k).linelock[p] <==> !OtherGranted(c, GrantsAt(c, tr, ins, k), p)
  {
    hide Inv, Initial, GrantsOf, Step, BusifGranted, TagGranted, BanksGranted, ReqLinelock, WpGrants, Advances;
    hide IsSpecial;
    hide HasRequest, Ack, WayIndices, LockOwner, LinelockReqs;
    var s, i, g := tr[k], ins[k], GrantsAt(c, tr, ins, k);
    RunCycle(c, tr, ins, k);
    SpecialAsks(s.wp[p], i.wp[p], WpGrants(c, i, g, p));
    LockRequested(c, s, i, g, p);
    if !g.linelock[p] && !OtherGranted(c, g, p) {
      LockBlocked(c, s, i, p);
      SpecialBusUnlocked(c, s, i, g, p);
      assert false;
    }
  }

  lemma SpecialBusUnlocked(c: Config, s: State, i: Inputs, g: Grants, p: nat)
    requires Inv(c, s) && Granted(c, s, i, g) && p < c.n && IsSpecial(s.wp[p].state)
    ensures !g.linelock[c.n]
  {
    hide PendingOk, BusifOk, BusOk, LockOk, TagOk, BanksOk, BusifGranted, TagGranted, BanksGranted, LineLockExclusive;
    hide IsSpecial;
    assert LinelockReqs(c, s, i, g.banks)[c.n] == BReqLinelock(s.bus);
  }

  lemma SpecialEntered(c: Config, tr: seq<State>, ins: seq<Inputs>, k: nat, p: nat)
    requires Run(c, tr, ins) && k < |ins| && p < c.n && Sized(c, tr[k + 1]) && IsSpecial(tr[k + 1].wp[p].state)
    ensures Legal(c, tr[k], ins[k]) && Sized(c, tr[k])
    ensures IsSpecial(tr[k].wp[p].state) || StartsSpecial(c, tr, k, p)
  {
    hide Inv, Granted, GrantsOf, Step, Initial, NextState, BusNext, RNextState, Offered, Ack, WpGrants, RpGrants;
    hide HasRequest, LockOwner, IsSpecial, WayIndices, SameRequest, Links;
    var s, i, g := tr[k], ins[k], GrantsAt(c, tr, ins, k);
    RunCycle(c, tr, ins, k);
    assert tr[k + 1].wp[p] == NextWp(c, s, i, g, p);
    SpecialAsks(s.wp[p], i.wp[p], WpGrants(c, i, g, p));
  }

  // A port in a special operation has started it in an earlier cycle 'k0' and has been in it since.
  lemma {:induction false} SpecialBegins(c: Config, tr: seq<State>, ins: seq<Inputs>, k: nat, p: nat) returns (k0: nat)
    requires Run(c, tr, ins) && k < |tr| && p < c.n && Sized(c, tr[k]) && IsSpecial(tr[k].wp[p].state)
    ensures k0 < k && Legal(c, tr[k0], ins[k0]) && Sized(c, tr[k0 + 1]) && StartsSpecial(c, tr, k0, p)
    ensures forall j | k0 < j <= k :: Sized(c, tr[j]) && IsSpecial(tr[j].wp[p].state)
  {
    hide GrantsOf, Step, Initial, IsSpecial, SameRequest;
    if k == 0 {
      InitialNotSpecial(c, tr[0], p);
      assert false;
    } else {
      SpecialEntered(c, tr, ins, k - 1, p);
      k0 := k - 1;
      if IsSpecial(tr[k - 1].wp[p].state) {
        k0 := SpecialBegins(c, tr, ins, k - 1, p);
      }
    }
  }

  lemma InitialNotSpecial(c: Config, s: State, p: nat)
    requires Initial(c, s) && p < c.n
    ensures !IsSpecial(s.wp[p].state)
  {}

  // A port that is granted the line lock in its operation, or when it starts it, keeps it to the end, and no other port
  // works on a line.
  lemma {:induction false} SpecialKeepsLock(c: Config, tr: seq<State>, ins: seq<Inputs>, k0: nat, k: nat, p: nat)
    requires Run(c, tr, ins) && k0 < k < |ins| && p < c.n && Legal(c, tr[k0], ins[k0])
    requires GrantsAt(c, tr, ins, k0).linelock[p]
    requires forall j | k0 < j <= k :: Sized(c, tr[j]) && IsSpecial(tr[j].wp[p].state)
    ensures Legal(c, tr[k], ins[k]) && GrantsAt(c, tr, ins, k).linelock[p]
    ensures forall q | 0 <= q < c.n && q != p :: !Critical(tr[k].wp[q].state)
    decreases k
  {
    hide Inv, Granted, GrantsOf, Step, Initial, NextWp, BusNext, RNextState, Offered, Ack, WpGrants, RpGrants;
    hide HasRequest;
    hide IsSpecial, Critical, WayIndices, Sized;
    if k > k0 + 1 {
      SpecialKeepsLock(c, tr, ins, k0, k - 1, p);
    }
    RunCycle(c, tr, ins, k - 1);
    RunCycle(c, tr, ins, k);
    assert tr[k - 1 + 1] == tr[k];
    SpecialHeld(c, tr[k], ins[k], GrantsAt(c, tr, ins, k), p);
  }

  lemma SpecialHeld(c: Config, s: State, i: Inputs, g: Grants, p: nat)
    requires Inv(c, s) && Granted(c, s, i, g) && p < c.n && s.linelock[p] && IsSpecial(s.wp[p].state)
    ensures g.linelock[p] && forall q | 0 <= q < c.n && q != p :: !Critical(s.wp[q].state)
  {
    hide PendingOk, BusifOk, BusOk, SpecialOk, TagOk, BanksOk, BusifGranted, TagGranted, BanksGranted;
    hide LineLockExclusive;
    hide IsSpecial, Critical, ReqLinelock, LinelockReqs, WpGrants, BReqLinelock;
    SpecialAsks(s.wp[p], i.wp[p], WpGrants(c, i, g, p));
    LockRequested(c, s, i, g, p);
  }

  // ---------- The lock that the bus interface works under ----------

  // The bus interface, or the write port it works for, is granted the line lock.
  ghost predicate WorksLocked(c: Config, s: State, g: Grants)
    requires c.Valid() && Sized(c, s) && GrantsSized(c, g)
  {
    if s.bus.noLinelock then exists p :: 0 <= p < c.n && Serves(c, s, p) && g.linelock[p] else g.linelock[c.n]
  }

  // The bus interface works for write port 'p' in a special operation, and another write port is granted the line lock.
  ghost predicate WorksUnlocked(c: Config, s: State, g: Grants, p: nat)
    requires c.Valid() && Sized(c, s) && GrantsSized(c, g)
  {
    p < c.n && s.bus.noLinelock && s.bus.op != ReplaceLine && Serves(c, s, p) && OtherGranted(c, g, p)
  }

  lemma OneServed(c: Config, s: State, p: nat, q: nat)
    requires Inv(c, s) && p < c.n && q < c.n && Serves(c, s, p) && Serves(c, s, q)
    ensures p == q
  {
    hide PendingOk, BusOk, SpecialOk, LockOk, TagOk, BanksOk, IsReplacing, IsSpecial, Geometry.Index, Geometry.Tag;
  }

  lemma BusKeepsLock(c: Config, s: State, i: Inputs, g: Grants)
    requires Inv(c, s) && Granted(c, s, i, g) && Working(s.bus) && !s.bus.noLinelock
    ensures g.linelock[c.n] && BusHoldsLock(s.bus)
  {
    hide PendingOk, BusifOk, BusOk, SpecialOk, TagOk, BanksOk, BusifGranted, TagGranted, BanksGranted;
    hide LineLockExclusive;
    assert LinelockReqs(c, s, i, g.banks)[c.n] == BReqLinelock(s.bus);
  }

  lemma ReplacerKeepsLock(c: Config, s: State, i: Inputs, g: Grants, p: nat)
    requires Inv(c, s) && Granted(c, s, i, g) && p < c.n && IsReplacing(s.wp[p].state)
    ensures g.linelock[p] && Critical(s.wp[p].state)
  {
    hide PendingOk, BusifOk, BusOk, SpecialOk, TagOk, BanksOk, BusifGranted, TagGranted, BanksGranted;
    hide LineLockExclusive;
    hide LinelockReqs, WpGrants;
    ReplacerAsks(s.wp[p], i.wp[p], WpGrants(c, i, g, p));
    hide ReqLinelock, Critical, IsReplacing;
    LockRequested(c, s, i, g, p);
  }

  lemma ReplacerAsks(r: WpRegs, i: WpIn, g: WpGnt)
    requires IsReplacing(r.state)
    ensures ReqLinelock(r, i, g.bank) && Critical(r.state)
  {}

  // Over all runs, whenever the bus interface works on a line: it is granted the line lock, or it works for a write
  // port. That port is granted the lock if it replaces a line, and in a special operation exactly if no other write
  // port is.
  lemma WorksLockedIff(c: Config, tr: seq<State>, ins: seq<Inputs>, k: nat)
    requires Run(c, tr, ins) && k < |ins| && Legal(c, tr[k], ins[k]) && Working(tr[k].bus)
    ensures var s, g := tr[k], GrantsAt(c, tr, ins, k);
      && (s.bus.noLinelock ==> exists p :: 0 <= p < c.n && Serves(c, s, p))
      && (WorksLocked(c, s, g) <==> forall p :: !WorksUnlocked(c, s, g, p))
  {
    hide Inv, Initial, GrantsOf, Step, Granted, Advances, Legal, Working, Serves, OtherGranted, CacheOp;
    var s, i, g := tr[k], ins[k], GrantsAt(c, tr, ins, k);
    RunCycle(c, tr, ins, k);
    RunServes(c, tr, ins, k);
    if !s.bus.noLinelock {
      BusKeepsLock(c, s, i, g);
    } else {
      var p :| 0 <= p < c.n && Serves(c, s, p);
      ServedLockedIff(c, tr, ins, k, p);
      forall q: nat | q < c.n && Serves(c, s, q)
        ensures q == p
      {
        OneServed(c, s, p, q);
      }
      assert WorksUnlocked(c, s, g, p) == (s.bus.op != ReplaceLine && OtherGranted(c, g, p));
    }
  }

  lemma ServedLockedIff(c: Config, tr: seq<State>, ins: seq<Inputs>, k: nat, p: nat)
    requires Run(c, tr, ins) && k < |ins| && Legal(c, tr[k], ins[k]) && p < c.n && Serves(c, tr[k], p)
    ensures var g := GrantsAt(c, tr, ins, k);
      g.linelock[p] <==> tr[k].bus.op == ReplaceLine || !OtherGranted(c, g, p)
  {
    hide Inv, Initial, GrantsOf, Step, Granted, Advances, IsReplacing, IsSpecial, OtherGranted, Geometry.Index;
    hide Geometry.Tag;
    RunCycle(c, tr, ins, k);
    if tr[k].bus.op == ReplaceLine {
      ReplacerKeepsLock(c, tr[k], ins[k], GrantsAt(c, tr, ins, k), p);
    } else {
      SpecialLockedIff(c, tr, ins, k, p);
    }
  }

  // The bus interface asks for tags and banks only while it works, and never for two of them at a time.
  lemma BusIfInOrder(b: BusRegs, bank: nat)
    ensures BReqTagr(b) || BReqTagw(b) || BReqBank(b, bank) ==> Working(b)
    ensures !(BReqTagr(b) && BReqTagw(b)) && !(BReqTagr(b) && BReqBank(b, bank)) && !(BReqTagw(b) && BReqBank(b, bank))
  {}

  // In cycle 'k' the bus interface works for write port 'q', in a special operation that the port has started in cycle
  // 'k0' without the line lock, and it was not granted the lock in any cycle before 'k' either.
  ghost predicate RunsUnlocked(c: Config, tr: seq<State>, ins: seq<Inputs>, k: nat, q: nat, k0: nat)
    requires Run(c, tr, ins) && k < |ins| && Legal(c, tr[k], ins[k])
  {
    && q < c.n && Serves(c, tr[k], q) && tr[k].bus.noLinelock
    && k0 < k && Legal(c, tr[k0], ins[k0]) && Sized(c, tr[k0 + 1]) && StartsSpecial(c, tr, k0, q)
    && (forall j | k0 < j <= k :: Sized(c, tr[j]) && IsSpecial(tr[j].wp[q].state))
    && (forall j | k0 <= j < k :: Legal(c, tr[j], ins[j]) && !GrantsAt(c, tr, ins, j).linelock[q])
  }

  // If a write port works on a line of the set that the bus interface works on, and the bus interface does not work for
  // it, then the bus interface runs a special operation that was started without the lock.
  lemma OverlapMeansUnlocked(c: Config, tr: seq<State>, ins: seq<Inputs>, k: nat, p: nat) returns (q: nat, k0: nat)
    requires Run(c, tr, ins) && k < |ins| && p < c.n && Legal(c, tr[k], ins[k])
    requires Working(tr[k].bus) && Critical(tr[k].wp[p].state) && !Serves(c, tr[k], p)
    requires c.geo.Index(ins[k].wp[p].adr) == c.geo.Index(tr[k].bus.adr)
    ensures q != p && RunsUnlocked(c, tr, ins, k, q, k0)
  {
    hide Inv, Initial, GrantsOf, Step, Granted, Advances, Working, Critical, IsSpecial, IsReplacing, OtherGranted;
    hide CacheOp, WayIndices, SameRequest;
    hide Geometry.Index, Geometry.Tag;
    var s, i, g := tr[k], ins[k], GrantsAt(c, tr, ins, k);
    RunCycle(c, tr, ins, k);
    RunServes(c, tr, ins, k);
    NoOverlapLocked(c, s, i, g, p);
    q :| 0 <= q < c.n && Serves(c, s, q);
    NoOverlapReplaced(c, s, i, g, p, q);
    k0 := SpecialBegins(c, tr, ins, k, q);
    NeverGranted(c, tr, ins, k0, k, q, p);
  }

  // A port in a special operation has never had the line lock in it if another port works on a line.
  lemma NeverGranted(c: Config, tr: seq<State>, ins: seq<Inputs>, k0: nat, k: nat, q: nat, p: nat)
    requires Run(c, tr, ins) && k0 < k < |ins| && q < c.n && p < c.n && p != q && Sized(c, tr[k])
    requires Legal(c, tr[k0], ins[k0]) && Critical(tr[k].wp[p].state)
    requires forall j | k0 < j <= k :: Sized(c, tr[j]) && IsSpecial(tr[j].wp[q].state)
    ensures forall j | k0 <= j < k :: Legal(c, tr[j], ins[j]) && !GrantsAt(c, tr, ins, j).linelock[q]
  {
    hide Inv, Initial, GrantsOf, Step, Granted, Advances, Critical, IsSpecial, Sized, SameRequest, WayIndices;
    forall j | k0 <= j < k
      ensures Legal(c, tr[j], ins[j]) && !GrantsAt(c, tr, ins, j).linelock[q]
    {
      RunCycle(c, tr, ins, j);
      if GrantsAt(c, tr, ins, j).linelock[q] {
        SpecialKeepsLock(c, tr, ins, j, k, q);
        assert false;
      }
    }
  }

  lemma NoOverlapLocked(c: Config, s: State, i: Inputs, g: Grants, p: nat)
    requires Inv(c, s) && Granted(c, s, i, g) && p < c.n && Working(s.bus) && Critical(s.wp[p].state)
    requires c.geo.Index(i.wp[p].adr) == c.geo.Index(s.bus.adr)
    ensures s.bus.noLinelock
  {
    if !s.bus.noLinelock {
      BusKeepsLock(c, s, i, g);
      InvExcludes(c, s, i);
      assert false;
    }
  }

  lemma NoOverlapReplaced(c: Config, s: State, i: Inputs, g: Grants, p: nat, q: nat)
    requires Inv(c, s) && Granted(c, s, i, g) && p < c.n && q < c.n && p != q && Critical(s.wp[p].state)
    ensures !IsReplacing(s.wp[q].state)
  {
    hide PendingOk, BusifOk, BusOk, SpecialOk, TagOk, BanksOk, BusifGranted, TagGranted, BanksGranted, LockGranted;
    if IsReplacing(s.wp[q].state) {
      ReplacerKeepsLock(c, s, i, g, q);
      hide Critical;
      InvExcludes(c, s, i);
      assert false;
    }
  }
}
