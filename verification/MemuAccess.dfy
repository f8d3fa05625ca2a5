// What an acknowledge of a write port means beyond the cache: the operation of the bus interface that the CPU has asked
// for has been taken over from this port for its address, and completed where the port waits for its end.

module MemuAccess {
  import opened Words
  import opened Address
  import opened ArbiterSpec
  import opened WritePortSpec
  import opened ReadPortSpec
  import opened BusIfSpec
  import opened MemuSpec
  import opened MemuProofs
  import opened MemuTags
  import opened MemuSafety
  import opened MemuHistory
  import opened BusIfLog
  import opened MemuOps

  // In cycle 'j' the bus interface takes over the operation 'op' at 'a' from the port on line 'l', which owns it.
  ghost predicate AcceptedFrom(c: Config, tr: seq<State>, ins: seq<Inputs>, j: nat, l: nat, op: BusOp, a: Adr)
    requires Run(c, tr, ins)
  {
    && j < |ins| && l < 3 * c.n && Legal(c, tr[j], ins[j]) && GrantsAt(c, tr, ins, j).busif[l]
    && !tr[j].bus.busy && tr[j + 1].bus.busy && tr[j + 1].bus.op == op && tr[j + 1].bus.adr == a
  }

  lemma BusAccepts(b: BusRegs, geo: Geometry, i: BusIn, g: BusGnt)
    requires geo.Valid() && |g.bank| == geo.banks && BusSized(b, geo) && BusOk(b) && !b.busy
    ensures var n := BusNext(b, geo, i, g);
      n.busy == (i.op != Nothing) && (n.busy ==> n.op == i.op && n.adr == i.adr)
  {}

  // What the port on line 'l' offers to the bus interface.
  function OfferOf(c: Config, s: State, i: Inputs, l: nat): (BusOp, Adr)
    requires Legal(c, s, i) && l < 3 * c.n
  {
    if l < 2 * c.n then (RBusifOp(s.rp[l], i.rp[l]), i.rp[l].adr)
    else (BusifOp(s.wp[l - 2 * c.n], i.wp[l - 2 * c.n]), i.wp[l - 2 * c.n].adr)
  }

  // An idle bus interface takes over what its owner offers.
  lemma OwnerAccepted(c: Config, tr: seq<State>, ins: seq<Inputs>, k: nat, l: nat)
    requires Run(c, tr, ins) && k < |ins| && Legal(c, tr[k], ins[k]) && l < 3 * c.n && GrantsAt(c, tr, ins, k).busif[l]
    requires !tr[k].bus.busy
    ensures var (op, a) := OfferOf(c, tr[k], ins[k], l);
      if op == Nothing then !tr[k + 1].bus.busy else AcceptedFrom(c, tr, ins, k, l, op, a)
  {
    hide GrantsOf, Step, Initial, Offered, BusGrants, BusNext, BusOk, BusifOp, RBusifOp, SameRequest, BusSized;
    var g := GrantsAt(c, tr, ins, k);
    BusCycle(c, tr, ins, k);
    OneOwner(c, tr, ins, k);
    OwnerOffers(c, tr[k], ins[k], g.busif, l);
    BusAccepts(tr[k].bus, c.geo, Offered(c, tr[k], ins[k], g.busif), BusGrants(c, g));
  }

  lemma OneOwner(c: Config, tr: seq<State>, ins: seq<Inputs>, k: nat)
    requires Run(c, tr, ins) && k < |ins|
    ensures Legal(c, tr[k], ins[k]) && OneHot(GrantsAt(c, tr, ins, k).busif)
    ensures BusifGranted(c, tr[k], ins[k], GrantsAt(c, tr, ins, k))
  {
    hide GrantsOf, Step, Initial, Inv, Advances, LockGranted, TagGranted, MemuBanks.BanksGranted, GrantsKept;
    RunCycle(c, tr, ins, k);
  }

  // ---------- Write ports ----------

  // The operation that the CPU asks the bus interface for: a write of a cached word needs its line.
  function Wanted(i: WpIn): BusOp {
    if i.wr then (if i.direct then DirectWrite else ReplaceLine)
    else if i.writeback then (if i.invalidate then Flush else Writeback)
    else if i.invalidate then Invalidate
    else Nothing
  }

  // The states in which the port deals with an uncached write, with cache control, or with a write to the cache.
  predicate StateFits(s: WpState, i: WpIn) {
    match s
    case Init => true
    case Direct => i.wr && i.direct
    case SpecialRequestBusifOnly => SpecialOp(i)
    case Special => SpecialOp(i)
    case SpecialWaitComplete => SpecialOp(i)
    case _ => i.wr && !i.direct
  }

  lemma FitsNext(r: WpRegs, i: WpIn, g: WpGnt)
    requires StateFits(r.state, i)
    ensures StateFits(NextState(r, i, g), i)
  {}

  lemma FitsSame(s: WpState, i: WpIn, j: WpIn)
    requires StateFits(s, j) && SameRequest(i, j)
    ensures StateFits(s, i) && Wanted(i) == Wanted(j)
  {}

  lemma {:induction false} RunFits(c: Config, tr: seq<State>, ins: seq<Inputs>, k: nat, p: nat)
    requires Run(c, tr, ins) && k < |ins| && p < c.n && Legal(c, tr[k], ins[k])
    ensures StateFits(tr[k].wp[p].state, ins[k].wp[p])
  {
    hide GrantsOf, Step, NextState, StateFits, WayIndices, SameRequest;
    if k == 0 {
      InitialIdle(c, tr[0], p);
      InitFits(ins[0].wp[p]);
    } else if tr[k].wp[p].state != Init {
      RequestKept(c, tr, ins, p, k);
      RunFits(c, tr, ins, k - 1, p);
      WpCycle(c, tr, ins, k - 1, p);
      FitsNext(tr[k - 1].wp[p], ins[k - 1].wp[p], WpGrants(c, ins[k - 1], GrantsAt(c, tr, ins, k - 1), p));
      FitsSame(tr[k].wp[p].state, ins[k].wp[p], ins[k - 1].wp[p]);
    } else {
      InitFits(ins[k].wp[p]);
    }
  }

  lemma InitFits(i: WpIn)
    ensures StateFits(Init, i)
  {}

  lemma WpCycle(c: Config, tr: seq<State>, ins: seq<Inputs>, k: nat, p: nat)
    requires Run(c, tr, ins) && k < |ins| && p < c.n
    ensures Legal(c, tr[k], ins[k]) && Sized(c, tr[k + 1])
    ensures tr[k + 1].wp[p].state ==
      NextState(tr[k].wp[p], ins[k].wp[p], WpGrants(c, ins[k], GrantsAt(c, tr, ins, k), p))
    ensures ins[k].wp[p].busy == tr[k].bus.busy
  {
    hide Inv, Granted, GrantsOf, Step, Initial, NextState, WpGrants, SameRequest, NextWp, BusNext, RNextState, Ack;
    hide WayIndices, Offered;
    RunCycle(c, tr, ins, k);
    NextStateOf(c, tr[k], ins[k], GrantsAt(c, tr, ins, k), tr[k + 1], p);
  }

  // The port owns an idle bus interface and offers 'op' to it.
  predicate Offers(r: WpRegs, i: WpIn, g: WpGnt, op: BusOp) {
    !i.busy && (g.busif || OwnsBusif(r.state)) && BusifOp(r, i) == op
  }

  predicate Rechecks(s: WpState) {
    s.Recheck? || s.RecheckReadTag?
  }

  // The port hands its operation over, and then waits for the end of it.
  predicate HandsOver(s: WpState) {
    s.Direct? || s.Replace? || s.Special?
  }

  predicate AwaitsEnd(s: WpState) {
    s.ReplaceWaitBusif? || s.SpecialWaitComplete?
  }

  lemma WaitEntered(r: WpRegs, i: WpIn, g: WpGnt)
    requires StateFits(r.state, i) && (Rechecks(r.state) ==> !i.busy)
    ensures var n := NextState(r, i, g);
      && (Rechecks(n) ==> Offers(r, i, g, Nothing))
      && (HandsOver(n) ==> Offers(r, i, g, Nothing) || (Offers(r, i, g, Wanted(i)) && Wanted(i) != Nothing))
      && (AwaitsEnd(n) ==> i.busy && (HandsOver(r.state) || AwaitsEnd(r.state)))
  {}

  lemma OfferTaken(c: Config, tr: seq<State>, ins: seq<Inputs>, k: nat, p: nat, op: BusOp)
    requires Run(c, tr, ins) && k < |ins| && p < c.n && Legal(c, tr[k], ins[k])
    requires Offers(tr[k].wp[p], ins[k].wp[p], WpGrants(c, ins[k], GrantsAt(c, tr, ins, k), p), op)
    ensures if op == Nothing then !tr[k + 1].bus.busy
      else AcceptedFrom(c, tr, ins, k, 2 * c.n + p, op, ins[k].wp[p].adr)
  {
    hide GrantsOf, Step, Initial, BusifOp, OwnsBusif, SameRequest, AcceptedFrom, Geometry.Bank, RBusifOp, Sized;
    WpOwner(c, tr, ins, k, p);
    OwnerAccepted(c, tr, ins, k, 2 * c.n + p);
  }

  lemma WpOwner(c: Config, tr: seq<State>, ins: seq<Inputs>, k: nat, p: nat)
    requires Run(c, tr, ins) && k < |ins| && p < c.n && Legal(c, tr[k], ins[k])
    ensures |tr[k].wp| == |ins[k].wp| == c.n && ins[k].wp[p].busy == tr[k].bus.busy
    ensures var g := GrantsAt(c, tr, ins, k);
      && (WpGrants(c, ins[k], g, p).busif <==> g.busif[2 * c.n + p])
      && (OwnsBusif(tr[k].wp[p].state) ==> g.busif[2 * c.n + p])
  {
    hide GrantsOf, Step, Initial, OwnsBusif, ROwnsBusif, SameRequest, Geometry.Bank, GrantsKept, OneHot;
    OneOwner(c, tr, ins, k);
  }

  // A port that rechecks its line finds the bus interface idle; while it hands over its operation, the bus interface is
  // idle or has just taken that operation over.
  lemma {:induction false} WpWaits(c: Config, tr: seq<State>, ins: seq<Inputs>, k: nat, p: nat)
    requires Run(c, tr, ins) && k < |ins| && p < c.n && Legal(c, tr[k], ins[k])
    ensures Rechecks(tr[k].wp[p].state) ==> !tr[k].bus.busy
    ensures HandsOver(tr[k].wp[p].state) && tr[k].bus.busy ==>
      && k > 0 && AcceptedFrom(c, tr, ins, k - 1, 2 * c.n + p, Wanted(ins[k].wp[p]), ins[k].wp[p].adr)
      && SameRequest(ins[k].wp[p], ins[k - 1].wp[p])
  {
    hide GrantsOf, Step, NextState, StateFits, WayIndices, SameRequest, AcceptedFrom, Offers, Wanted, WpGrants;
    if k == 0 {
      InitialIdle(c, tr[0], p);
    } else if Rechecks(tr[k].wp[p].state) || HandsOver(tr[k].wp[p].state) {
      RequestKept(c, tr, ins, p, k);
      RunFits(c, tr, ins, k - 1, p);
      WpWaits(c, tr, ins, k - 1, p);
      WpCycle(c, tr, ins, k - 1, p);
      var r, i, g := tr[k - 1].wp[p], ins[k - 1].wp[p], WpGrants(c, ins[k - 1], GrantsAt(c, tr, ins, k - 1), p);
      WaitEntered(r, i, g);
      SameWants(ins[k].wp[p], i);
      assert tr[k - 1 + 1] == tr[k];
      if Offers(r, i, g, Nothing) {
        OfferTaken(c, tr, ins, k - 1, p, Nothing);
      } else {
        OfferTaken(c, tr, ins, k - 1, p, Wanted(i));
      }
    }
  }

  lemma SameWants(i: WpIn, j: WpIn)
    requires SameRequest(i, j)
    ensures Wanted(i) == Wanted(j) && i.adr == j.adr
  {}

  // The access of port 'p' in cycle 'k' is the one of cycle 'j'.
  ghost predicate SameAccess(c: Config, tr: seq<State>, ins: seq<Inputs>, j: nat, k: nat, p: nat)
    requires Run(c, tr, ins) && j <= k < |ins| && p < c.n
  {
    && (forall x | j < x <= k :: |tr[x].wp| == c.n && tr[x].wp[p].state != Init)
    && |ins[j].wp| == |ins[k].wp| == c.n && SameRequest(ins[k].wp[p], ins[j].wp[p])
  }

  lemma SameBefore(i: WpIn, j: WpIn, h: WpIn)
    requires SameRequest(i, j) && SameRequest(j, h)
    ensures SameRequest(i, h) && Wanted(i) == Wanted(h) && i.adr == h.adr
  {}

  // One cycle of a port that waits.
  lemma AwaitsCycle(c: Config, tr: seq<State>, ins: seq<Inputs>, k: nat, p: nat)
    requires Run(c, tr, ins) && k < |ins| && p < c.n && Legal(c, tr[k], ins[k]) && AwaitsEnd(tr[k].wp[p].state)
    ensures k > 0 && Legal(c, tr[k - 1], ins[k - 1]) && SameRequest(ins[k].wp[p], ins[k - 1].wp[p])
    ensures |tr[k].wp| == |tr[k - 1].wp| == |ins[k].wp| == |ins[k - 1].wp| == c.n
    ensures tr[k - 1].bus.busy && (HandsOver(tr[k - 1].wp[p].state) || AwaitsEnd(tr[k - 1].wp[p].state))
  {
    hide GrantsOf, Step, NextState, StateFits, WayIndices, SameRequest, Wanted, WpGrants;
    if k == 0 {
      InitialIdle(c, tr[0], p);
      assert false;
    } else {
      RequestKept(c, tr, ins, p, k);
      RunFits(c, tr, ins, k - 1, p);
      WpWaits(c, tr, ins, k - 1, p);
      WpCycle(c, tr, ins, k - 1, p);
      WaitEntered(tr[k - 1].wp[p], ins[k - 1].wp[p], WpGrants(c, ins[k - 1], GrantsAt(c, tr, ins, k - 1), p));
      assert tr[k - 1 + 1] == tr[k];
    }
  }

  lemma AccessGrows(c: Config, tr: seq<State>, ins: seq<Inputs>, j: nat, k: nat, p: nat)
    requires Run(c, tr, ins) && j < k < |ins| && p < c.n && Legal(c, tr[k], ins[k])
      && SameAccess(c, tr, ins, j, k - 1, p)
    requires tr[k].wp[p].state != Init && SameRequest(ins[k].wp[p], ins[k - 1].wp[p])
    ensures SameAccess(c, tr, ins, j, k, p)
    ensures Wanted(ins[k].wp[p]) == Wanted(ins[k - 1].wp[p]) && ins[k].wp[p].adr == ins[k - 1].wp[p].adr
  {
    hide Step, GrantsOf, Initial, SameRequest, WayIndices, Wanted;
    SameBefore(ins[k].wp[p], ins[k - 1].wp[p], ins[j].wp[p]);
    SameBefore(ins[k].wp[p], ins[k].wp[p], ins[k - 1].wp[p]);
  }

  lemma AccessStarts(c: Config, tr: seq<State>, ins: seq<Inputs>, k: nat, p: nat)
    requires Run(c, tr, ins) && k + 1 < |ins| && p < c.n && Legal(c, tr[k], ins[k]) && Legal(c, tr[k + 1], ins[k + 1])
    requires tr[k + 1].wp[p].state != Init && SameRequest(ins[k + 1].wp[p], ins[k].wp[p])
    ensures SameAccess(c, tr, ins, k, k + 1, p)
    ensures !tr[k].bus.busy && tr[k + 1].bus.busy ==> Busy(c, tr, ins, k, k + 1)
  {
    hide Step, GrantsOf, Initial, SameRequest, WayIndices;
  }

  // A port that waits for the end of an operation has handed it over in this access.
  lemma {:induction false} WpAwaits(c: Config, tr: seq<State>, ins: seq<Inputs>, k: nat, p: nat) returns (j: nat)
    requires Run(c, tr, ins) && k < |ins| && p < c.n && Legal(c, tr[k], ins[k]) && AwaitsEnd(tr[k].wp[p].state)
    ensures j + 1 < k && SameAccess(c, tr, ins, j, k, p) && Busy(c, tr, ins, j, k - 1)
    ensures AcceptedFrom(c, tr, ins, j, 2 * c.n + p, Wanted(ins[k].wp[p]), ins[k].wp[p].adr)
  {
    hide GrantsOf, Step, Legal, SameAccess, SameRequest, AcceptedFrom, Wanted, Busy, Initial;
    AwaitsCycle(c, tr, ins, k, p);
    if HandsOver(tr[k - 1].wp[p].state) {
      WpWaits(c, tr, ins, k - 1, p);
      AcceptedIdle(c, tr, ins, k - 2, 2 * c.n + p, Wanted(ins[k - 1].wp[p]), ins[k - 1].wp[p].adr);
      AccessStarts(c, tr, ins, k - 2, p);
      j := k - 2;
    } else {
      j := WpAwaits(c, tr, ins, k - 1, p);
      BusyGrows(c, tr, ins, j, k - 2);
    }
    AccessGrows(c, tr, ins, j, k, p);
  }

  lemma AcceptedIdle(c: Config, tr: seq<State>, ins: seq<Inputs>, j: nat, l: nat, op: BusOp, a: Adr)
    requires Run(c, tr, ins) && AcceptedFrom(c, tr, ins, j, l, op, a)
    ensures j < |ins| && Legal(c, tr[j], ins[j]) && !tr[j].bus.busy && tr[j + 1].bus.busy
  {}

  // ---------- What an acknowledge of a write port means ----------

  // An uncached write is acknowledged only after the bus interface has taken it over from this port, in this access,
  // as a write to its address.
  lemma UncachedWriteIssued(c: Config, tr: seq<State>, ins: seq<Inputs>, k: nat, p: nat)
    requires Run(c, tr, ins) && k < |ins| && p < c.n && Legal(c, tr[k], ins[k])
    requires ins[k].wp[p].wr && ins[k].wp[p].direct
    requires Ack(tr[k].wp[p], ins[k].wp[p], WpGrants(c, ins[k], GrantsAt(c, tr, ins, k), p))
    ensures k > 0 && AcceptedFrom(c, tr, ins, k - 1, 2 * c.n + p, DirectWrite, ins[k].wp[p].adr)
    ensures SameRequest(ins[k].wp[p], ins[k - 1].wp[p])
  {
    assert ins[k].wp[p].busy == tr[k].bus.busy;
    hide GrantsOf, Step, Initial, Legal, SameRequest, AcceptedFrom, WpGrants;
    RunFits(c, tr, ins, k, p);
    WpWaits(c, tr, ins, k, p);
  }

  // Cache control is acknowledged only when the bus interface has taken over just the operation that was asked for,
  // from this port in this access, and has completed it.
  lemma SpecialIsDone(c: Config, tr: seq<State>, ins: seq<Inputs>, k: nat, p: nat) returns (j: nat)
    requires Run(c, tr, ins) && k < |ins| && p < c.n && Legal(c, tr[k], ins[k]) && !ins[k].wp[p].wr
    requires Ack(tr[k].wp[p], ins[k].wp[p], WpGrants(c, ins[k], GrantsAt(c, tr, ins, k), p))
    ensures var i := ins[k].wp[p];
      var op := if !i.writeback then Invalidate else if i.invalidate then Flush else Writeback;
      && j < k && SameAccess(c, tr, ins, j, k, p) && AcceptedFrom(c, tr, ins, j, 2 * c.n + p, op, i.adr)
      && !tr[k].bus.busy && c.Valid() && Complete(c.geo, op, i.adr, LogOf(c, tr, ins, j, k))
  {
    assert ins[k].wp[p].busy == tr[k].bus.busy;
    hide GrantsOf, Step, Initial, Legal, SameRequest, SameAccess, AcceptedFrom, WpGrants, Busy, Complete, LogOf;
    RunFits(c, tr, ins, k, p);
    AckOfSpecial(tr[k].wp[p], ins[k].wp[p], WpGrants(c, ins[k], GrantsAt(c, tr, ins, k), p));
    j := HandedOverDone(c, tr, ins, k, p);
  }

  lemma AckOfSpecial(r: WpRegs, i: WpIn, g: WpGnt)
    requires StateFits(r.state, i) && !i.wr && Ack(r, i, g)
    ensures r.state.SpecialWaitComplete? && !i.busy && SpecialOp(i)
  {}

  // A port that has waited for the end of an operation finds it completed when the bus interface gets idle: after a
  // write miss the line of the port has been replaced.
  lemma HandedOverDone(c: Config, tr: seq<State>, ins: seq<Inputs>, k: nat, p: nat) returns (j: nat)
    requires Run(c, tr, ins) && k < |ins| && p < c.n && Legal(c, tr[k], ins[k])
    requires AwaitsEnd(tr[k].wp[p].state) && !tr[k].bus.busy
    ensures var i := ins[k].wp[p];
      && j < k && SameAccess(c, tr, ins, j, k, p) && AcceptedFrom(c, tr, ins, j, 2 * c.n + p, Wanted(i), i.adr)
      && c.Valid() && Complete(c.geo, Wanted(i), i.adr, LogOf(c, tr, ins, j, k))
  {
    hide GrantsOf, Step, Initial, Legal, SameRequest, SameAccess, Busy, Complete, LogOf, AwaitsEnd;
    PortsSized(c, tr[k], ins[k]);
    RunFits(c, tr, ins, k, p);
    NotUncached(tr[k].wp[p].state, ins[k].wp[p]);
    j := WpAwaits(c, tr, ins, k, p);
    OperationCompletes(c, tr, ins, j, k - 1);
  }

  lemma NotUncached(s: WpState, i: WpIn)
    requires StateFits(s, i) && AwaitsEnd(s)
    ensures !Uncached(Wanted(i))
  {}

  // Every other acknowledge belongs to a write to the cache, which has been committed, or to a store conditional that
  // fails for want of a valid link.
  lemma OtherAcks(c: Config, tr: seq<State>, ins: seq<Inputs>, k: nat, p: nat)
    requires Run(c, tr, ins) && k < |ins| && p < c.n && Legal(c, tr[k], ins[k])
    requires ins[k].wp[p].wr && !ins[k].wp[p].direct
    requires Ack(tr[k].wp[p], ins[k].wp[p], WpGrants(c, ins[k], GrantsAt(c, tr, ins, k), p))
    ensures !Critical(tr[k].wp[p].state) ==>
      tr[k].wp[p].state == Init && ins[k].wp[p].rlinkWcond && !tr[k].wp[p].linkValid
  {
    hide GrantsOf, Step, Initial, Legal, SameRequest, WpGrants;
    RunFits(c, tr, ins, k, p);
  }
}
