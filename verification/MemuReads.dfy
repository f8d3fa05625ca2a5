// What an acknowledge of a read port means: the word comes from the bank that its tag points to, or has been read from
// the bus in an operation that is asked for by this port, but for one case.

module MemuReads {
  import opened Words
  import opened Address
  import opened ArbiterSpec
  import opened BankArbiter
  import opened WritePortSpec
  import opened ReadPortSpec
  import opened BusIfSpec
  import opened MemuSpec
  import opened MemuProofs
  import opened MemuTags
  import opened MemuSafety
  import opened BusIfLog
  import opened MemuOps
  import opened MemuAccess

  lemma RpCycle(c: Config, tr: seq<State>, ins: seq<Inputs>, k: nat, p: nat)
    requires Run(c, tr, ins) && k < |ins| && p < 2 * c.n
    ensures Legal(c, tr[k], ins[k]) && Sized(c, tr[k + 1])
    ensures tr[k + 1].rp[p] == RNextState(tr[k].rp[p], ins[k].rp[p], RpGrants(c, ins[k], GrantsAt(c, tr, ins, k), p))
    ensures ins[k].rp[p].busy == tr[k].bus.busy && ins[k].rp[p].busifHit == BusHit(tr[k].bus, ins[k].rp[p].adr)
    ensures ROwnsBusif(tr[k].rp[p]) ==> GrantsAt(c, tr, ins, k).busif[p]
  {
    hide Inv, GrantsOf, Step, Initial, RpGrants, SameRequest, NextWp, BusNext, RNextState, Ack, WayIndices, Offered;
    hide LockGranted, TagGranted, MemuBanks.BanksGranted, GrantsKept, OneHot, BusHit, ROwnsBusif;
    RunCycle(c, tr, ins, k);
  }

  // The port owns an idle bus interface and offers 'op' to it.
  predicate ROffers(q: RpState, i: RpIn, g: RpGnt, op: BusOp) {
    !i.busy && (g.busif || ROwnsBusif(q)) && RBusifOp(q, i) == op
  }

  // The port looks for its line again, as the owner of the bus interface.
  predicate RRechecks(q: RpState) {
    q.RMissRequestTag? || q.RMissReadTag?
  }

  lemma RWaitEntered(q: RpState, i: RpIn, g: RpGnt)
    requires RRechecks(q) ==> !i.busy
    ensures RRechecks(RNextState(q, i, g)) ==> ROffers(q, i, g, Nothing)
    ensures RNextState(q, i, g).RMissReplace? ==>
      ROffers(q, i, g, Nothing) || (q.RMissReplace? && RBusifOp(q, i) == ReplaceLine)
    ensures RNextState(q, i, g).RDirectWaitBusif? ==> (g.busif || ROwnsBusif(q)) && RBusifOp(q, i) == DirectRead
  {}

  lemma ROfferTaken(c: Config, tr: seq<State>, ins: seq<Inputs>, k: nat, p: nat, op: BusOp)
    requires Run(c, tr, ins) && k < |ins| && p < 2 * c.n && Legal(c, tr[k], ins[k])
    requires ROffers(tr[k].rp[p], ins[k].rp[p], RpGrants(c, ins[k], GrantsAt(c, tr, ins, k), p), op)
    ensures if op == Nothing then !tr[k + 1].bus.busy else AcceptedFrom(c, tr, ins, k, p, op, ins[k].rp[p].adr)
  {
    hide GrantsOf, Step, Initial, BusifOp, ROwnsBusif, SameRequest, AcceptedFrom, Geometry.Bank, RBusifOp;
    RpCycle(c, tr, ins, k, p);
    OwnerAccepted(c, tr, ins, k, p);
  }

  lemma {:induction false} RpRechecks(c: Config, tr: seq<State>, ins: seq<Inputs>, k: nat, p: nat)
    requires Run(c, tr, ins) && k < |ins| && p < 2 * c.n && Legal(c, tr[k], ins[k]) && RRechecks(tr[k].rp[p])
    ensures !tr[k].bus.busy
  {
    hide GrantsOf, Step, RNextState, WayIndices, SameRequest, RRechecks, ROffers, RpGrants, BusHit;
    if k == 0 {
      InitialReset(c, tr[0]);
    } else {
      RpCycle(c, tr, ins, k - 1, p);
      if RRechecks(tr[k - 1].rp[p]) {
        RpRechecks(c, tr, ins, k - 1, p);
      }
      assert tr[k - 1 + 1] == tr[k];
      RWaitEntered(tr[k - 1].rp[p], ins[k - 1].rp[p], RpGrants(c, ins[k - 1], GrantsAt(c, tr, ins, k - 1), p));
      ROfferTaken(c, tr, ins, k - 1, p, Nothing);
    }
  }

  // The port stays in state 'q' from cycle 'j' to cycle 'k'.
  ghost predicate StaysIn(c: Config, tr: seq<State>, j: nat, k: nat, p: nat, q: RpState)
    requires k < |tr|
  {
    forall x | j <= x <= k :: p < |tr[x].rp| && tr[x].rp[p] == q
  }

  // A port that waits for its line to be replaced has started the replacement if the bus interface is busy.
  lemma {:induction false} RpReplaces(c: Config, tr: seq<State>, ins: seq<Inputs>, k: nat, p: nat) returns (j: nat)
    requires Run(c, tr, ins) && k < |ins| && p < 2 * c.n && Legal(c, tr[k], ins[k])
    requires tr[k].rp[p] == RMissReplace && tr[k].bus.busy
    ensures j < k && Busy(c, tr, ins, j, k) && StaysIn(c, tr, j, k, p, RMissReplace) && |ins[j].rp| == 2 * c.n
    ensures AcceptedFrom(c, tr, ins, j, p, ReplaceLine, ins[j].rp[p].adr)
  {
    hide GrantsOf, Step, RNextState, WayIndices, SameRequest, RRechecks, ROffers, RpGrants, BusHit, AcceptedFrom;
    hide StaysIn;
    if k == 0 {
      assert false;
    } else {
      ReplaceCycle(c, tr, ins, k, p);
      if tr[k - 1].bus.busy {
        j := RpReplaces(c, tr, ins, k - 1, p);
        BusyGrows(c, tr, ins, j, k - 1);
      } else {
        j := k - 1;
      }
      StaysOn(c, tr, j, k, p, RMissReplace);
    }
  }

  lemma StaysOn(c: Config, tr: seq<State>, j: nat, k: nat, p: nat, q: RpState)
    requires j < k < |tr| && p < |tr[k].rp| && p < |tr[k - 1].rp| && tr[k - 1].rp[p] == tr[k].rp[p] == q
    requires j == k - 1 || StaysIn(c, tr, j, k - 1, p, q)
    ensures StaysIn(c, tr, j, k, p, q)
  {}

  lemma ReplaceCycle(c: Config, tr: seq<State>, ins: seq<Inputs>, k: nat, p: nat)
    requires Run(c, tr, ins) && 0 < k < |ins| && p < 2 * c.n && Legal(c, tr[k], ins[k])
    requires tr[k].rp[p] == RMissReplace && tr[k].bus.busy
    ensures Legal(c, tr[k - 1], ins[k - 1]) && tr[k - 1].rp[p] == RMissReplace
    ensures |ins[k - 1].rp| == |tr[k - 1].rp| == |tr[k].rp| == 2 * c.n
    ensures !tr[k - 1].bus.busy ==> Busy(c, tr, ins, k - 1, k)
    ensures !tr[k - 1].bus.busy ==> AcceptedFrom(c, tr, ins, k - 1, p, ReplaceLine, ins[k - 1].rp[p].adr)
  {
    hide GrantsOf, Step, RNextState, WayIndices, SameRequest, RRechecks, RpGrants, BusHit, AcceptedFrom, RBusifOp;
    RpCycle(c, tr, ins, k - 1, p);
    var q, i, g := tr[k - 1].rp[p], ins[k - 1].rp[p], RpGrants(c, ins[k - 1], GrantsAt(c, tr, ins, k - 1), p);
    if RRechecks(q) {
      RpRechecks(c, tr, ins, k - 1, p);
    }
    assert tr[k - 1 + 1] == tr[k];
    RWaitEntered(q, i, g);
    if ROffers(q, i, g, Nothing) {
      ROfferTaken(c, tr, ins, k - 1, p, Nothing);
    } else if !tr[k - 1].bus.busy {
      ROfferTaken(c, tr, ins, k - 1, p, ReplaceLine);
    }
  }

  // ---------- Uncached reads ----------

  // An uncached read that the bus interface takes over comes from a read port.
  lemma OfferedByReader(c: Config, s: State, i: Inputs, busif: Lines) returns (q: nat)
    requires Legal(c, s, i) && |busif| == 3 * c.n && Offered(c, s, i, busif).op == DirectRead
    ensures q < 2 * c.n && busif[q] && RBusifOp(s.rp[q], i.rp[q]) == DirectRead
    ensures Offered(c, s, i, busif).adr == i.rp[q].adr
  {
    hide SameRequest, RBusifOp;
    q := LastSet(busif, 3 * c.n);
  }

  lemma DirectReadTaken(c: Config, tr: seq<State>, ins: seq<Inputs>, j: nat) returns (q: nat)
    requires Run(c, tr, ins) && j < |ins|
    requires !tr[j].bus.busy && tr[j + 1].bus.busy && tr[j + 1].bus.op == DirectRead
    ensures Legal(c, tr[j], ins[j]) && q < 2 * c.n && GrantsAt(c, tr, ins, j).busif[q]
    ensures RBusifOp(tr[j].rp[q], ins[j].rp[q]) == DirectRead && tr[j + 1].bus.adr == ins[j].rp[q].adr
  {
    hide GrantsOf, Step, Initial, Offered, BusGrants, BusNext, BusOk, RBusifOp, SameRequest;
    var g := GrantsAt(c, tr, ins, j);
    BusCycle(c, tr, ins, j);
    BusAccepts(tr[j].bus, c.geo, Offered(c, tr[j], ins[j], g.busif), BusGrants(c, g));
    q := OfferedByReader(c, tr[j], ins[j], g.busif);
  }

  // The port waits for the word.
  lemma WaitsForWord(q: RpState, i: RpIn, g: RpGnt)
    requires RBusifOp(q, i) == DirectRead && g.busif && !i.busifHit
    ensures RNextState(q, i, g) == RDirectWaitBusif
    ensures RBusifOp(RDirectWaitBusif, i) == DirectRead && ROwnsBusif(RDirectWaitBusif)
  {}

  lemma NoHit(b: BusRegs, geo: Geometry, i: BusIn, g: BusGnt, a: Adr)
    requires geo.Valid() && |g.bank| == geo.banks && BusSized(b, geo) && UncachedPc(b)
    requires b.busy ==> b.op == DirectRead && BusNext(b, geo, i, g).busy
    ensures !BusHit(b, a)
  {}

  // While the bus interface reads an uncached word, the port that has asked for it waits and owns it.
  lemma {:induction false} ReaderWaits(c: Config, tr: seq<State>, ins: seq<Inputs>, j: nat, k: nat, q: nat)
    requires Run(c, tr, ins) && k < |tr| && Busy(c, tr, ins, j, k) && tr[j + 1].bus.op == DirectRead
    requires Legal(c, tr[j], ins[j]) && q < 2 * c.n && GrantsAt(c, tr, ins, j).busif[q]
    requires RBusifOp(tr[j].rp[q], ins[j].rp[q]) == DirectRead
    ensures StaysIn(c, tr, j + 1, k, q, RDirectWaitBusif)
    decreases k
  {
    hide GrantsOf, Step, RNextState, RBusifOp, ROwnsBusif, BusHit, RpGrants, Initial, Legal;
    if k > j + 1 {
      BusyBefore(c, tr, ins, j, k);
      ReaderWaits(c, tr, ins, j, k - 1, q);
      BusyKeepsOp(c, tr, ins, j, k - 1);
    }
    ReaderWaitsCycle(c, tr, ins, k - 1, q);
    assert tr[k - 1 + 1] == tr[k];
  }

  lemma ReaderWaitsCycle(c: Config, tr: seq<State>, ins: seq<Inputs>, k: nat, q: nat)
    requires Run(c, tr, ins) && k < |ins| && Legal(c, tr[k], ins[k]) && q < 2 * c.n
    requires tr[k + 1].bus.busy && (tr[k].bus.busy ==> tr[k].bus.op == DirectRead)
    requires tr[k].rp[q] == RDirectWaitBusif ||
      (GrantsAt(c, tr, ins, k).busif[q] && RBusifOp(tr[k].rp[q], ins[k].rp[q]) == DirectRead)
    ensures |tr[k + 1].rp| == 2 * c.n && tr[k + 1].rp[q] == RDirectWaitBusif
  {
    hide GrantsOf, Step, RNextState, RBusifOp, BusHit, Initial, Offered, BusGrants, BusNext, UncachedPc, BusOk;
    hide ROwnsBusif, SameRequest, Geometry.Bank;
    RpCycle(c, tr, ins, k, q);
    BusCycle(c, tr, ins, k);
    RunUncachedPc(c, tr, ins, k);
    var g := GrantsAt(c, tr, ins, k);
    NoHit(tr[k].bus, c.geo, Offered(c, tr[k], ins[k], g.busif), BusGrants(c, g), ins[k].rp[q].adr);
    WaitOwns(ins[k].rp[q]);
    WaitsForWord(tr[k].rp[q], ins[k].rp[q], RpGrants(c, ins[k], g, q));
  }

  lemma WaitOwns(i: RpIn)
    ensures RBusifOp(RDirectWaitBusif, i) == DirectRead && ROwnsBusif(RDirectWaitBusif)
  {}

  lemma DirectEntered(q: RpState, i: RpIn, g: RpGnt)
    requires RNextState(q, i, g) == RDirectWaitBusif
    ensures q == RDirectWaitBusif || (g.busif && RBusifOp(q, i) == DirectRead)
  {}

  // The port is given the bus interface for an uncached read in cycle 'b', and waits for its word up to cycle 'k'.
  ghost predicate ReadsFrom(c: Config, tr: seq<State>, ins: seq<Inputs>, b: nat, k: nat, p: nat)
    requires Run(c, tr, ins) && b < k < |tr| && p < 2 * c.n
  {
    && Legal(c, tr[b], ins[b]) && GrantsAt(c, tr, ins, b).busif[p]
    && Accepts(tr[b].rp[p]) && ins[b].rp[p].rd && ins[b].rp[p].direct && StaysIn(c, tr, b + 1, k, p, RDirectWaitBusif)
  }

  lemma OffersRead(q: RpState, i: RpIn)
    ensures RBusifOp(q, i) == DirectRead <==> q == RDirectWaitBusif || (Accepts(q) && i.rd && i.direct)
    ensures !(q == RDirectWaitBusif && Accepts(q))
  {}

  lemma {:induction false} ReadBegins(c: Config, tr: seq<State>, ins: seq<Inputs>, k: nat, p: nat) returns (b: nat)
    requires Run(c, tr, ins) && k < |tr| && p < 2 * c.n && p < |tr[k].rp| && tr[k].rp[p] == RDirectWaitBusif
    ensures b < k && ReadsFrom(c, tr, ins, b, k, p)
  {
    hide GrantsOf, Step, RNextState, RBusifOp, Accepts, StaysIn, SameRequest, RpGrants, BusHit;
    if k == 0 {
      assert false;
    } else {
      RpCycle(c, tr, ins, k - 1, p);
      assert tr[k - 1 + 1] == tr[k];
      var q, i := tr[k - 1].rp[p], ins[k - 1].rp[p];
      var g := GrantsAt(c, tr, ins, k - 1);
      DirectEntered(q, i, RpGrants(c, ins[k - 1], g, p));
      OffersRead(q, i);
      ReaderGrant(c, ins[k - 1], g, p);
      b := k - 1;
      if q == RDirectWaitBusif {
        b := ReadBegins(c, tr, ins, k - 1, p);
        StaysOn(c, tr, b + 1, k, p, RDirectWaitBusif);
      } else {
        StaysAt(c, tr, k, p, RDirectWaitBusif);
      }
    }
  }

  lemma StaysAt(c: Config, tr: seq<State>, k: nat, p: nat, q: RpState)
    requires k < |tr| && p < |tr[k].rp| && tr[k].rp[p] == q
    ensures StaysIn(c, tr, k, k, p, q)
  {}

  lemma ReaderGrant(c: Config, i: Inputs, g: Grants, p: nat)
    requires c.Valid() && GrantsSized(c, g) && p < 2 * c.n == |i.rp|
    ensures RpGrants(c, i, g, p).busif == g.busif[p]
  {}

  // The bus interface gets busy in the access: the read has been taken over.
  lemma ReadTaken(c: Config, tr: seq<State>, ins: seq<Inputs>, b: nat, j: nat, k: nat, p: nat)
    requires Run(c, tr, ins) && b <= j < k < |ins| && p < 2 * c.n && ReadsFrom(c, tr, ins, b, k, p)
    requires Busy(c, tr, ins, j, k)
    ensures |ins[j].rp| == 2 * c.n && AcceptedFrom(c, tr, ins, j, p, DirectRead, ins[j].rp[p].adr)
  {
    hide GrantsOf, Step, RBusifOp, Accepts, SameRequest, BusHit, AcceptedFrom, ROwnsBusif, RNextState, RpGrants;
    RpCycle(c, tr, ins, j, p);
    OffersRead(tr[j].rp[p], ins[j].rp[p]);
    WaitOwns(ins[j].rp[p]);
    OwnerAccepted(c, tr, ins, j, p);
  }

  // Conversely, only a port that is in its uncached read has such a read taken over.
  lemma ReadIsOwn(c: Config, tr: seq<State>, ins: seq<Inputs>, b: nat, j: nat, k: nat, p: nat)
    requires Run(c, tr, ins) && b < k < |ins| && p < 2 * c.n && ReadsFrom(c, tr, ins, b, k, p)
    requires Busy(c, tr, ins, j, k) && tr[j + 1].bus.op == DirectRead
    ensures b <= j
  {
    hide GrantsOf, Step, RBusifOp, SameRequest, BusHit, ROwnsBusif, RNextState, RpGrants, Accepts;
    var q := DirectReadTaken(c, tr, ins, j);
    ReaderWaits(c, tr, ins, j, k, q);
    BothOwn(c, tr, ins, k, p, q);
    if j < b {
      OffersRead(tr[b].rp[p], ins[b].rp[p]);
    }
  }

  // Two ports that wait for an uncached word are the same.
  lemma BothOwn(c: Config, tr: seq<State>, ins: seq<Inputs>, k: nat, p: nat, q: nat)
    requires Run(c, tr, ins) && k < |ins| && p < 2 * c.n && q < 2 * c.n && p < |tr[k].rp| && q < |tr[k].rp|
    requires tr[k].rp[p] == tr[k].rp[q] == RDirectWaitBusif
    ensures p == q
  {
    hide GrantsOf, Step, ROwnsBusif, SameRequest, RNextState, RpGrants;
    WaitOwns(ins[k].rp[p]);
    RpCycle(c, tr, ins, k, p);
    RpCycle(c, tr, ins, k, q);
    OneOwner(c, tr, ins, k);
  }

  // ---------- What an acknowledge of a read port means ----------

  // A word that the bus interface offers to the read ports has been read from the bus, in the operation that it is at.
  lemma HitIsRead(c: Config, tr: seq<State>, ins: seq<Inputs>, k: nat, a: Adr) returns (j: nat)
    requires Run(c, tr, ins) && k < |tr| && BusHit(tr[k].bus, a)
    ensures j < k && Busy(c, tr, ins, j, k) && c.Valid()
    ensures tr[j + 1].bus.op == DirectRead || tr[j + 1].bus.op == ReplaceLine
    ensures tr[j + 1].bus.op == ReplaceLine || AcksStrobes(tr, ins, j, k) ==>
      Transfer(false, a) in LogOf(c, tr, ins, j, k).transfers && SameLine(c.geo, a, tr[j + 1].bus.adr)
  {
    hide GrantsOf, Step, Initial, Legal, Progress, LogOf, SameLine, AcksStrobes, Busy;
    j := BusyBegins(c, tr, ins, k);
    BusyBefore(c, tr, ins, j, k);
    BusyKeepsOp(c, tr, ins, j, k);
    RunUncachedPc(c, tr, ins, k);
    if !Uncached(tr[j + 1].bus.op) || AcksStrobes(tr, ins, j, k) {
      RunProgress(c, tr, ins, j, k);
      HitsAreRead(c.geo, tr[j + 1].bus.op, tr[j + 1].bus.adr, tr[k].bus, LogOf(c, tr, ins, j, k));
    }
  }

  // A read port that asks for the word at its address is acknowledged in the state 'q'.
  lemma AckSources(q: RpState, i: RpIn, g: RpGnt, j: RpIn)
    requires RAck(q, i, g)
    ensures (HoldsTag(q) && i.tag.valid && g.bank) || i.busifHit
    ensures var n := RNextState(q, i, g);
      && (n.RReadBank? <==> HoldsTag(q) && i.tag.valid && g.bank)
      && RDataOut(n, j) == if HoldsTag(q) && i.tag.valid && g.bank then j.bankData else j.busifData
  {}

  // The bank is read for port 'p' in cycle 'k' at the way of the tag that it holds.
  ghost predicate BankIsRead(c: Config, tr: seq<State>, ins: seq<Inputs>, k: nat, p: nat)
    requires Run(c, tr, ins) && k < |ins| && p < 2 * c.n && Legal(c, tr[k], ins[k])
  {
    var i, g := ins[k].rp[p], GrantsAt(c, tr, ins, k);
    HoldsTag(tr[k].rp[p]) && i.tag.valid && g.banks[c.geo.Bank(i.adr)][p]
  }

  // A read port is acknowledged only in a cycle in which it holds a valid tag and is granted its bank, which then
  // drives the index of its address and the way of that tag, sampled in cycle 's' and overwritten by nobody since; or
  // in which the word has been read from the bus by the operation that the bus interface has begun in cycle 's'. The
  // data of the next cycle come from the bank exactly in the first case.
  lemma ReadAckMeans(c: Config, tr: seq<State>, ins: seq<Inputs>, k: nat, p: nat, next: RpIn) returns (s: nat)
    requires Run(c, tr, ins) && k < |ins| && p < 2 * c.n && Legal(c, tr[k], ins[k])
    requires RAck(tr[k].rp[p], ins[k].rp[p], RpGrants(c, ins[k], GrantsAt(c, tr, ins, k), p))
    ensures p < |tr[k + 1].rp| && s < k
    ensures RDataOut(tr[k + 1].rp[p], next) == if BankIsRead(c, tr, ins, k, p) then next.bankData else next.busifData
    ensures var a, b := ins[k].rp[p].adr, c.geo.Bank(ins[k].rp[p].adr);
      if BankIsRead(c, tr, ins, k, p) then
        var w, g := WayIndices(c, tr[k], ins[k]), GrantsAt(c, tr, ins, k).banks[b];
        && w[p] == c.geo.WayIndex(a, ins[k].rp[p].tag.way) && BankConsistent(g, w, c.n)
        && Legal(c, tr[s], ins[s]) && GrantsAt(c, tr, ins, s).tagr[p]
        && forall j, x | s <= j <= k && 0 <= x <= c.n ::
             Legal(c, tr[j], ins[j]) && !WritesTag(c, tr[j], ins[j], GrantsAt(c, tr, ins, j), x)
      else
        && Busy(c, tr, ins, s, k) && BusHit(tr[k].bus, a)
        && (tr[s + 1].bus.op == ReplaceLine || tr[s + 1].bus.op == DirectRead)
        && (tr[s + 1].bus.op == ReplaceLine || AcksStrobes(tr, ins, s, k) ==>
            Transfer(false, a) in LogOf(c, tr, ins, s, k).transfers)
  {
    hide GrantsOf, Step, Initial, HoldsTag, RNextState, RAck, RDataOut, BusHit, WritesTag, Busy, LogOf, AcksStrobes;
    hide SameRequest, BankConsistent, Geometry.WayIndex, Geometry.Bank;
    RpCycle(c, tr, ins, k, p);
    var g := GrantsAt(c, tr, ins, k);
    AckSources(tr[k].rp[p], ins[k].rp[p], RpGrants(c, ins[k], g, p), next);
    if BankIsRead(c, tr, ins, k, p) {
      BankGrantsSafe(c, tr, ins, k, c.geo.Bank(ins[k].rp[p].adr));
      s := ReadHitNotTorn(c, tr, ins, k, p);
    } else {
      s := HitIsRead(c, tr, ins, k, ins[k].rp[p].adr);
    }
  }

  // After a miss, the word that is acknowledged has been read from the bus in a replacement of its line that this port
  // has started in this access.
  lemma MissAnswered(c: Config, tr: seq<State>, ins: seq<Inputs>, k: nat, p: nat) returns (j: nat)
    requires Run(c, tr, ins) && k < |ins| && p < 2 * c.n && Legal(c, tr[k], ins[k]) && tr[k].rp[p] == RMissReplace
    requires RAck(tr[k].rp[p], ins[k].rp[p], RpGrants(c, ins[k], GrantsAt(c, tr, ins, k), p))
    ensures j < k && Busy(c, tr, ins, j, k) && StaysIn(c, tr, j, k, p, RMissReplace) && |ins[j].rp| == 2 * c.n
    ensures AcceptedFrom(c, tr, ins, j, p, ReplaceLine, ins[j].rp[p].adr)
    ensures c.Valid() && SameLine(c.geo, ins[k].rp[p].adr, ins[j].rp[p].adr)
    ensures Transfer(false, ins[k].rp[p].adr) in LogOf(c, tr, ins, j, k).transfers
  {
    hide GrantsOf, Step, Initial, LogOf, Progress, SameLine, SameRequest, StaysIn;
    RpCycle(c, tr, ins, k, p);
    j := RpReplaces(c, tr, ins, k, p);
    RunProgress(c, tr, ins, j, k);
    HitsAreRead(c.geo, ReplaceLine, ins[j].rp[p].adr, tr[k].bus, LogOf(c, tr, ins, j, k));
  }

  // An uncached read is acknowledged when its word has been read from the bus. It has been read for this port, in this
  // access, if and only if the bus interface was idle in some cycle of it; otherwise the bus interface is replacing a
  // line that has this word, which it was asked for before the port got it.
  lemma UncachedReadAnswered(c: Config, tr: seq<State>, ins: seq<Inputs>, k: nat, p: nat) returns (b: nat, j: nat)
    requires Run(c, tr, ins) && k < |ins| && p < 2 * c.n && Legal(c, tr[k], ins[k]) && tr[k].rp[p] == RDirectWaitBusif
    requires RAck(tr[k].rp[p], ins[k].rp[p], RpGrants(c, ins[k], GrantsAt(c, tr, ins, k), p))
    ensures b < k && ReadsFrom(c, tr, ins, b, k, p)
    ensures j < k && Busy(c, tr, ins, j, k) && c.Valid()
    ensures b <= j <==> AcceptedFrom(c, tr, ins, j, p, DirectRead, ins[k].rp[p].adr)
    ensures b <= j <==> exists x :: b <= x < k && !tr[x].bus.busy
    ensures !AcceptedFrom(c, tr, ins, j, p, DirectRead, ins[k].rp[p].adr) ==>
      && tr[j + 1].bus.op == ReplaceLine && SameLine(c.geo, ins[k].rp[p].adr, tr[j + 1].bus.adr)
      && Transfer(false, ins[k].rp[p].adr) in LogOf(c, tr, ins, j, k).transfers
  {
    hide GrantsOf, Step, Initial, LogOf, SameLine, SameRequest, StaysIn, ReadsFrom, AcksStrobes;
    RpCycle(c, tr, ins, k, p);
    b := ReadBegins(c, tr, ins, k, p);
    j := HitIsRead(c, tr, ins, k, ins[k].rp[p].adr);
    BusyKeepsOp(c, tr, ins, j, k);
    if b <= j {
      ReadTaken(c, tr, ins, b, j, k, p);
    } else if tr[j + 1].bus.op == DirectRead {
      ReadIsOwn(c, tr, ins, b, j, k, p);
    }
  }
}
