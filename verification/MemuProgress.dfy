// Ports make progress: a request that is held is acknowledged after a bounded number of cycles in which the port and
// the bus interface are granted all that they ask for.

module MemuProgress {
  import opened Words
  import opened Address
  import opened ArbiterSpec
  import opened WritePortSpec
  import opened ReadPortSpec
  import opened BusIfSpec
  import opened MemuSpec
  import opened MemuProofs
  import opened MemuTags
  import opened MemuSafety
  import opened MemuHistory
  import opened BusIfLog
  import opened MemuOps
  import opened MemuAccess
  import opened MemuReads

  // ---------- The bus interface ----------

  // An upper bound for the served cycles of an operation.
  function OpBound(geo: Geometry): nat {
    2 * geo.banks + 16
  }

  // The served cycles until the bus interface is idle.
  function BusLeft(b: BusRegs, geo: Geometry): int {
    if b.busy then Remaining(b.pc, geo) else 0
  }

  lemma BusLeftBound(c: Config, tr: seq<State>, ins: seq<Inputs>, k: nat)
    requires Run(c, tr, ins) && k < |tr|
    ensures if tr[k].bus.busy then 0 < BusLeft(tr[k].bus, c.geo) <= OpBound(c.geo) else BusLeft(tr[k].bus, c.geo) == 0
  {
    hide GrantsOf, Step, Initial, Legal, Remaining, PcOk, Busy;
    if tr[k].bus.busy {
      var s := BusyBegins(c, tr, ins, k);
      BusyPcOk(c, tr, ins, s, k);
      RemainingBound(tr[k].bus, c.geo);
    }
  }

  // A busy bus interface that is served comes nearer to its end.
  lemma BusWindsDown(c: Config, tr: seq<State>, ins: seq<Inputs>, k: nat)
    requires Run(c, tr, ins) && k < |ins| && tr[k].bus.busy && BusServed(c, tr, ins, k)
    ensures 0 <= BusLeft(tr[k + 1].bus, c.geo) < BusLeft(tr[k].bus, c.geo) <= OpBound(c.geo)
  {
    hide GrantsOf, Step, Initial, Legal, Remaining, Busy, BusServed;
    BusLeftBound(c, tr, ins, k);
    BusLeftBound(c, tr, ins, k + 1);
    if tr[k + 1].bus.busy {
      var s := BusyBegins(c, tr, ins, k);
      ServedNext(c, tr, ins, s, k);
    }
  }

  // ---------- Write ports ----------

  // The port is granted all that it asks for.
  predicate WpServed(r: WpRegs, i: WpIn, g: WpGnt) {
    && (ReqLinelock(r, i, g.bank) ==> g.linelock) && (ReqTagr(r, i) ==> g.tagr) && (ReqTagw(r) ==> g.tagw)
    && (ReqBank(r, i) ==> g.bank) && (ReqBusif(r, i) ==> g.busif)
  }

  // The tag is read again after the line has been replaced, and still is not valid.
  predicate MissesAgain(s: WpState, i: WpIn, replaced: bool) {
    s.ReadTag? && replaced && !i.tag.valid
  }

  // An upper bound for the served cycles until the acknowledge: 'left' for the bus interface to get idle, 'n' for any
  // operation, 'replaced' if the line has just been replaced.
  function WpLeft(s: WpState, i: WpIn, replaced: bool, left: int, n: nat): int {
    match s
    case Init => if i.wr && !i.direct then 14 + 2 * n else if i.wr then 3 + left else 4 + n + left
    case Direct => if left > 0 then 1 else 2
    case RequestLinelockOnly => 15 + 2 * n
    case ReadTag => if replaced then 6 else 13 + 2 * n
    case HaveTagRequestBank => 5
    case ReadBank => 4
    case WriteTag1AndBank => 3
    case WriteTag2AndBank => 1
    case WriteTag1 => 2
    case WriteTag2 => 1
    case WriteBank => 1
    case Miss => 12 + n + left
    case RequestBusifOnly => 13 + 2 * n
    case Recheck => 11 + n
    case RecheckReadTag => 10 + n
    case Replace => if left > 0 then 8 + left else 9 + n
    case ReplaceWaitBusif => 7 + left
    case SpecialRequestBusifOnly => 5 + 2 * n
    case Special => if left > 0 then 2 + left else 3 + n
    case SpecialWaitComplete => 1 + left
  }

  // 'left2' cycles are left for the bus interface after the cycle.
  lemma WpServedAdvances(r: WpRegs, i: WpIn, g: WpGnt, replaced: bool, left: int, left2: int, n: nat)
    requires StateFits(r.state, i) && HasRequest(i) && WpServed(r, i, g) && !Ack(r, i, g)
    requires !MissesAgain(r.state, i, replaced)
    requires 0 <= left <= n && 0 <= left2 <= n && (i.busy <==> left > 0) && (i.busy ==> left2 < left)
    requires !i.busy && g.busif ==> (left2 == 0 <==> BusifOp(r, i) == Nothing)
    ensures WpLeft(NextState(r, i, g), i, r.state.ReplaceWaitBusif?, left2, n) < WpLeft(r.state, i, replaced, left, n)
  {}

  // A cycle in which port and bus interface are granted all that they ask for.
  ghost predicate WpServedAt(c: Config, tr: seq<State>, ins: seq<Inputs>, k: nat, p: nat)
    requires Run(c, tr, ins) && k < |ins| && p < c.n
  {
    && Legal(c, tr[k], ins[k]) && BusServed(c, tr, ins, k)
    && WpServed(tr[k].wp[p], ins[k].wp[p], WpGrants(c, ins[k], GrantsAt(c, tr, ins, k), p))
  }

  // The port has a request that is not acknowledged, and does not miss a line that has just been replaced.
  ghost predicate WpUnanswered(c: Config, tr: seq<State>, ins: seq<Inputs>, k: nat, p: nat)
    requires Run(c, tr, ins) && k < |ins| && p < c.n
  {
    && Legal(c, tr[k], ins[k]) && HasRequest(ins[k].wp[p])
    && !Ack(tr[k].wp[p], ins[k].wp[p], WpGrants(c, ins[k], GrantsAt(c, tr, ins, k), p))
    && !MissesAgain(tr[k].wp[p].state, ins[k].wp[p], Replaced(tr, k, p))
  }

  predicate Replaced(tr: seq<State>, k: nat, p: nat)
    requires k < |tr|
  {
    k > 0 && p < |tr[k - 1].wp| && tr[k - 1].wp[p].state.ReplaceWaitBusif?
  }

  ghost function WpLeftAt(c: Config, tr: seq<State>, ins: seq<Inputs>, k: nat, p: nat): int
    requires k < |ins| && k < |tr| && p < |tr[k].wp| && p < |ins[k].wp|
  {
    WpLeft(tr[k].wp[p].state, ins[k].wp[p], Replaced(tr, k, p), BusLeft(tr[k].bus, c.geo), OpBound(c.geo))
  }

  lemma RequestHeld(c: Config, tr: seq<State>, ins: seq<Inputs>, k: nat, p: nat)
    requires Run(c, tr, ins) && k + 1 < |ins| && p < c.n && Legal(c, tr[k], ins[k]) && HasRequest(ins[k].wp[p])
    requires !Ack(tr[k].wp[p], ins[k].wp[p], WpGrants(c, ins[k], GrantsAt(c, tr, ins, k), p))
    ensures Legal(c, tr[k + 1], ins[k + 1]) && |tr[k + 1].wp| == |ins[k + 1].wp| == c.n
    ensures SameRequest(ins[k + 1].wp[p], ins[k].wp[p])
  {
    hide Inv, Granted, GrantsOf, Step, Initial, NextWp, BusNext, RNextState, Offered, Ack, WpGrants, RpGrants;
    hide WayIndices;
    hide SameRequest, HasRequest;
    RunCycle(c, tr, ins, k);
    RunCycle(c, tr, ins, k + 1);
    assert tr[k + 1].pending[p];
  }

  lemma SameLeft(s: WpState, i: WpIn, j: WpIn, replaced: bool, left: int, n: nat)
    requires SameRequest(i, j)
    ensures WpLeft(s, i, replaced, left, n) == WpLeft(s, j, replaced, left, n)
    ensures HasRequest(i) == HasRequest(j)
  {}

  // What one cycle makes of the bus interface that the port owns.
  lemma BusAfterOffer(c: Config, tr: seq<State>, ins: seq<Inputs>, k: nat, p: nat)
    requires Run(c, tr, ins) && k < |ins| && p < c.n && Legal(c, tr[k], ins[k]) && BusServed(c, tr, ins, k)
    ensures |tr[k].wp| == |ins[k].wp| == c.n
    ensures var left, left2, n := BusLeft(tr[k].bus, c.geo), BusLeft(tr[k + 1].bus, c.geo), OpBound(c.geo);
      var i, g := ins[k].wp[p], WpGrants(c, ins[k], GrantsAt(c, tr, ins, k), p);
      && 0 <= left <= n && 0 <= left2 <= n && (i.busy <==> left > 0) && (i.busy ==> left2 < left)
      && (!i.busy && g.busif ==> (left2 == 0 <==> BusifOp(tr[k].wp[p], i) == Nothing))
  {
    hide GrantsOf, Step, Initial, BusServed, BusLeft, BusifOp, WpGrants, SameRequest, OwnsBusif;
    BusLeftBound(c, tr, ins, k);
    BusLeftBound(c, tr, ins, k + 1);
    var r, i, g := tr[k].wp[p], ins[k].wp[p], WpGrants(c, ins[k], GrantsAt(c, tr, ins, k), p);
    if tr[k].bus.busy {
      BusWindsDown(c, tr, ins, k);
    } else if g.busif {
      OfferTaken(c, tr, ins, k, p, BusifOp(r, i));
    }
  }

  lemma WpCycleLeft(c: Config, tr: seq<State>, ins: seq<Inputs>, k: nat, p: nat)
    requires Run(c, tr, ins) && k + 1 < |ins| && p < c.n
    requires WpServedAt(c, tr, ins, k, p) && WpUnanswered(c, tr, ins, k, p)
    ensures |tr[k].wp| == |ins[k].wp| == |tr[k + 1].wp| == |ins[k + 1].wp| == c.n
    ensures Legal(c, tr[k + 1], ins[k + 1]) && HasRequest(ins[k + 1].wp[p])
    ensures WpLeftAt(c, tr, ins, k + 1, p) < WpLeftAt(c, tr, ins, k, p)
  {
    hide GrantsOf, Step, Initial, BusServed, BusLeft, BusifOp, WpGrants, SameRequest, WpServed, Ack, WpLeft, NextState;
    hide StateFits, MissesAgain, HasRequest;
    BusAfterOffer(c, tr, ins, k, p);
    RequestHeld(c, tr, ins, k, p);
    RunFits(c, tr, ins, k, p);
    WpCycle(c, tr, ins, k, p);
    var r, i, g := tr[k].wp[p], ins[k].wp[p], WpGrants(c, ins[k], GrantsAt(c, tr, ins, k), p);
    var left, left2, n := BusLeft(tr[k].bus, c.geo), BusLeft(tr[k + 1].bus, c.geo), OpBound(c.geo);
    WpServedAdvances(r, i, g, Replaced(tr, k, p), left, left2, n);
    SameLeft(tr[k + 1].wp[p].state, ins[k + 1].wp[p], i, Replaced(tr, k + 1, p), left2, n);
  }

  lemma WpLeftBound(c: Config, tr: seq<State>, ins: seq<Inputs>, k: nat, p: nat)
    requires Run(c, tr, ins) && k < |ins| && p < c.n && Legal(c, tr[k], ins[k])
    ensures |tr[k].wp| == |ins[k].wp| == c.n && 0 < WpLeftAt(c, tr, ins, k, p) <= 2 * OpBound(c.geo) + 15
  {
    hide GrantsOf, Step, Initial, BusLeft, SameRequest;
    BusLeftBound(c, tr, ins, k);
  }

  // A request that is held is acknowledged after at most 4 * banks + 47 consecutive cycles in which port and bus
  // interface are granted all that they ask for, unless the tag RAM denies a line that has just been replaced.
  lemma {:induction false} WriteIsAnswered(c: Config, tr: seq<State>, ins: seq<Inputs>, s: nat, k: nat, p: nat)
    requires Run(c, tr, ins) && s <= k < |ins| && p < c.n && Legal(c, tr[s], ins[s])
    requires forall x | s <= x < k :: WpServedAt(c, tr, ins, x, p) && WpUnanswered(c, tr, ins, x, p)
    ensures |tr[s].wp| == |ins[s].wp| == |tr[k].wp| == |ins[k].wp| == c.n && Legal(c, tr[k], ins[k])
    ensures WpLeftAt(c, tr, ins, k, p) + k - s <= WpLeftAt(c, tr, ins, s, p)
    ensures k - s < 4 * c.geo.banks + 47
  {
    hide GrantsOf, Step, Initial, WpServedAt, WpUnanswered, WpLeft, Legal, WpLeftAt;
    WpLeftBound(c, tr, ins, s, p);
    if k > s {
      WriteIsAnswered(c, tr, ins, s, k - 1, p);
      WpCycleLeft(c, tr, ins, k - 1, p);
    }
    WpLeftBound(c, tr, ins, k, p);
  }

  // ---------- Read ports ----------

  predicate RpServed(q: RpState, i: RpIn, g: RpGnt) {
    && (RReqTagr(q, i) ==> g.tagr) && (RReqBank(q, i) ==> g.bank) && (RReqBusif(q, i) ==> g.busif)
  }

  // An upper bound for the served cycles until the acknowledge, while the bus interface is at the operation 'op'.
  function RpLeft(q: RpState, i: RpIn, op: BusOp, left: int, n: nat): int {
    match q
    case RInit => if i.direct then 4 + 2 * n else 7 + 2 * n
    case RReadBank => if i.direct then 4 + 2 * n else 7 + 2 * n
    case RDirectWaitBusif => if left == 0 then 2 + n else if op == DirectRead then 1 + left else 3 + n + left
    case RReadTag => 6 + 2 * n
    case RMissWaitBusif => 5 + n + left
    case RMissRequestTag => 4 + n
    case RMissReadTag => 3 + n
    case RMissReplace => if left == 0 then 2 + n else 1 + left
  }

  // The operation that the port waits for does not end before it has been given its word.
  lemma RpServedAdvances(q: RpState, i: RpIn, g: RpGnt, op: BusOp, op2: BusOp, left: int, left2: int, n: nat)
    requires i.rd && RpServed(q, i, g) && !RAck(q, i, g)
    requires 0 <= left <= n && 0 <= left2 <= n && (i.busy <==> left > 0) && (i.busy ==> left2 < left)
    requires !i.busy && g.busif ==> (left2 == 0 <==> RBusifOp(q, i) == Nothing) && (left2 > 0 ==> op2 == RBusifOp(q, i))
    requires i.busy && left2 > 0 ==> op2 == op
    requires i.busy && (q.RMissReplace? || (q.RDirectWaitBusif? && op == DirectRead)) ==> left2 > 0
    ensures RpLeft(RNextState(q, i, g), i, op2, left2, n) < RpLeft(q, i, op, left, n)
  {}

  // A replacement before its first word has been read.
  predicate EarlyPc(pc: Pc) {
    pc.Idle? || pc.LockWait? || pc.TagWait? || pc.TagRead? || pc.TagHave? || pc == BusRead(0)
  }

  predicate EarlyOrHit(b: BusRegs, a: Adr) {
    b.busy && b.op == ReplaceLine && ((EarlyPc(b.pc) && b.adr == a) || BusHit(b, a))
  }

  lemma EarlyNext(b: BusRegs, geo: Geometry, i: BusIn, g: BusGnt, a: Adr)
    requires geo.Valid() && |g.bank| == geo.banks && BusSized(b, geo) && EarlyOrHit(b, a) && !BusHit(b, a)
    requires WordAdr(a) == a
    ensures EarlyOrHit(BusNext(b, geo, i, g), a)
  {}

  lemma AcceptedPc(c: Config, tr: seq<State>, ins: seq<Inputs>, j: nat)
    requires Run(c, tr, ins) && j < |ins| && !tr[j].bus.busy
    ensures tr[j + 1].bus.pc == Idle
  {
    hide GrantsOf, Step, Initial, Offered, BusGrants, SameRequest, NextPc, NextAdr, Releasing, LineRead, BusOk;
    hide BusSized;
    BusCycle(c, tr, ins, j);
    var g := GrantsAt(c, tr, ins, j);
    BusLatches(tr[j].bus, c.geo, Offered(c, tr[j], ins[j], g.busif), BusGrants(c, g));
  }

  // The first word that a replacement offers is the one it was asked for.
  lemma {:induction false} WordComesFirst(c: Config, tr: seq<State>, ins: seq<Inputs>, j: nat, k: nat, l: nat, a: Adr)
    requires Run(c, tr, ins) && k < |tr| && Busy(c, tr, ins, j, k) && AcceptedFrom(c, tr, ins, j, l, ReplaceLine, a)
    requires WordAdr(a) == a && forall x | j < x < k :: !BusHit(tr[x].bus, a)
    ensures EarlyOrHit(tr[k].bus, a)
    decreases k
  {
    hide GrantsOf, Step, Initial, Legal, BusHit, EarlyOrHit;
    BusyBefore(c, tr, ins, j, k);
    if k == j + 1 {
      AcceptedPc(c, tr, ins, j);
      EarlyStarts(tr[k].bus, a);
    } else {
      WordComesFirst(c, tr, ins, j, k - 1, l, a);
      EarlyCycle(c, tr, ins, k - 1, a);
      assert tr[k - 1 + 1] == tr[k];
    }
  }

  lemma EarlyCycle(c: Config, tr: seq<State>, ins: seq<Inputs>, k: nat, a: Adr)
    requires Run(c, tr, ins) && k < |ins| && EarlyOrHit(tr[k].bus, a) && !BusHit(tr[k].bus, a) && WordAdr(a) == a
    ensures EarlyOrHit(tr[k + 1].bus, a)
  {
    hide GrantsOf, Step, Initial, BusHit, EarlyOrHit, Offered, BusGrants, BusNext, SameRequest;
    BusCycle(c, tr, ins, k);
    var g := GrantsAt(c, tr, ins, k);
    EarlyNext(tr[k].bus, c.geo, Offered(c, tr[k], ins[k], g.busif), BusGrants(c, g), a);
  }

  lemma EarlyStarts(b: BusRegs, a: Adr)
    requires b.busy && b.op == ReplaceLine && b.pc == Idle && b.adr == a
    ensures EarlyOrHit(b, a)
  {}

  // ---------- A read from its first cycle on ----------

  // The port is ready for a request in cycle 's', and its CPU holds one up to cycle 'k'.
  ghost predicate ReadHeld(c: Config, tr: seq<State>, ins: seq<Inputs>, s: nat, k: nat, p: nat)
    requires Run(c, tr, ins) && s <= k < |ins| && p < 2 * c.n
  {
    && Legal(c, tr[s], ins[s]) && Accepts(tr[s].rp[p]) && ins[s].rp[p].rd
    && WordAdr(ins[s].rp[p].adr) == ins[s].rp[p].adr
    && forall x | s <= x <= k :: |ins[x].rp| == 2 * c.n && ins[x].rp[p].rd && ins[x].rp[p].direct == ins[s].rp[p].direct
         && ins[x].rp[p].adr == ins[s].rp[p].adr
  }

  // A cycle in which port and bus interface are granted all that they ask for, without an acknowledge.
  ghost predicate RpServedAt(c: Config, tr: seq<State>, ins: seq<Inputs>, k: nat, p: nat)
    requires Run(c, tr, ins) && k < |ins| && p < 2 * c.n
  {
    && Legal(c, tr[k], ins[k]) && BusServed(c, tr, ins, k)
    && var g := RpGrants(c, ins[k], GrantsAt(c, tr, ins, k), p);
    && RpServed(tr[k].rp[p], ins[k].rp[p], g) && !RAck(tr[k].rp[p], ins[k].rp[p], g)
  }

  ghost function RpLeftAt(c: Config, tr: seq<State>, ins: seq<Inputs>, k: nat, p: nat): int
    requires k < |ins| && k < |tr| && p < |tr[k].rp| && p < |ins[k].rp|
  {
    RpLeft(tr[k].rp[p], ins[k].rp[p], tr[k].bus.op, BusLeft(tr[k].bus, c.geo), OpBound(c.geo))
  }

  lemma NoAckNoHit(q: RpState, i: RpIn, g: RpGnt)
    requires (q.RMissReplace? || q.RDirectWaitBusif?) && !RAck(q, i, g)
    ensures !i.busifHit
  {}

  lemma NoHitYet(c: Config, tr: seq<State>, ins: seq<Inputs>, k: nat, p: nat)
    requires Run(c, tr, ins) && k < |ins| && p < 2 * c.n && RpServedAt(c, tr, ins, k, p)
    ensures Legal(c, tr[k], ins[k]) && |tr[k].rp| == |ins[k].rp| == 2 * c.n && BusServed(c, tr, ins, k)
    ensures tr[k].rp[p].RMissReplace? || tr[k].rp[p].RDirectWaitBusif? ==> !BusHit(tr[k].bus, ins[k].rp[p].adr)
  {
    hide GrantsOf, Step, Initial, BusHit, RAck, RpServed, BusServed, RpGrants, SameRequest, RNextState;
    RpCycle(c, tr, ins, k, p);
    if tr[k].rp[p].RMissReplace? || tr[k].rp[p].RDirectWaitBusif? {
      NoAckNoHit(tr[k].rp[p], ins[k].rp[p], RpGrants(c, ins[k], GrantsAt(c, tr, ins, k), p));
    }
  }

  // The bus interface stays busy with the line of a port that waits for it.
  lemma ReplaceGoesOn(c: Config, tr: seq<State>, ins: seq<Inputs>, s: nat, k: nat, p: nat)
    requires Run(c, tr, ins) && s <= k < |ins| && p < 2 * c.n && ReadHeld(c, tr, ins, s, k, p)
      && Legal(c, tr[k], ins[k])
    requires forall x | s <= x <= k :: RpServedAt(c, tr, ins, x, p)
    requires tr[k].rp[p] == RMissReplace && tr[k].bus.busy
    ensures tr[k + 1].bus.busy
  {
    hide GrantsOf, Step, Initial, BusHit, RpServedAt, Legal, AcceptedFrom, Busy, EarlyOrHit;
    var j := RpReplaces(c, tr, ins, k, p);
    var a := ins[s].rp[p].adr;
    assert j >= s;
    forall x | j < x <= k
      ensures !BusHit(tr[x].bus, a)
    {
      assert RpServedAt(c, tr, ins, x, p);
      NoHitYet(c, tr, ins, x, p);
    }
    WordComesFirst(c, tr, ins, j, k, p, a);
    EarlyCycle(c, tr, ins, k, a);
    EarlyBusy(tr[k + 1].bus, a);
  }

  lemma EarlyBusy(b: BusRegs, a: Adr)
    requires EarlyOrHit(b, a)
    ensures b.busy
  {}

  // So it does with its uncached word.
  lemma ReadGoesOn(c: Config, tr: seq<State>, ins: seq<Inputs>, s: nat, k: nat, p: nat)
    requires Run(c, tr, ins) && s <= k < |ins| && p < 2 * c.n && ReadHeld(c, tr, ins, s, k, p)
      && Legal(c, tr[k], ins[k])
    requires RpServedAt(c, tr, ins, k, p)
    requires tr[k].rp[p] == RDirectWaitBusif && tr[k].bus.busy && tr[k].bus.op == DirectRead
    ensures tr[k + 1].bus.busy
  {
    hide GrantsOf, Step, Initial, BusHit, RAck, RpServed, BusServed, RpGrants, SameRequest, RBusifOp;
    var j := BusyBegins(c, tr, ins, k);
    BusyKeepsOp(c, tr, ins, j, k);
    var q := DirectReadTaken(c, tr, ins, j);
    ReaderWaits(c, tr, ins, j, k, q);
    BothOwn(c, tr, ins, k, p, q);
    assert j >= s;
    NoHitYet(c, tr, ins, k, p);
    UncachedGoesOn(c, tr, ins, k);
  }

  lemma UncachedGoesOn(c: Config, tr: seq<State>, ins: seq<Inputs>, k: nat)
    requires Run(c, tr, ins) && k < |ins| && tr[k].bus.busy && tr[k].bus.op == DirectRead
    requires !BusHit(tr[k].bus, tr[k].bus.adr)
    ensures tr[k + 1].bus.busy
  {
    hide GrantsOf, Step, Initial, Offered, BusGrants, SameRequest;
    BusCycle(c, tr, ins, k);
    RunUncachedPc(c, tr, ins, k);
  }

  lemma ReadBusAfterOffer(c: Config, tr: seq<State>, ins: seq<Inputs>, k: nat, p: nat)
    requires Run(c, tr, ins) && k < |ins| && p < 2 * c.n && Legal(c, tr[k], ins[k]) && BusServed(c, tr, ins, k)
    ensures |tr[k].rp| == |ins[k].rp| == 2 * c.n
    ensures var left, left2, n := BusLeft(tr[k].bus, c.geo), BusLeft(tr[k + 1].bus, c.geo), OpBound(c.geo);
      var i, g, op := ins[k].rp[p], RpGrants(c, ins[k], GrantsAt(c, tr, ins, k), p),
        RBusifOp(tr[k].rp[p], ins[k].rp[p]);
      && 0 <= left <= n && 0 <= left2 <= n && (i.busy <==> left > 0) && (i.busy ==> left2 < left)
      && (!i.busy && g.busif ==> (left2 == 0 <==> op == Nothing) && (left2 > 0 ==> tr[k + 1].bus.op == op))
      && (i.busy && left2 > 0 ==> tr[k + 1].bus.op == tr[k].bus.op) && (left2 > 0 <==> tr[k + 1].bus.busy)
  {
    hide GrantsOf, Step, Initial, BusServed, BusLeft, RBusifOp, RpGrants, SameRequest, ROwnsBusif, RNextState, BusHit;
    BusLeftBound(c, tr, ins, k);
    BusLeftBound(c, tr, ins, k + 1);
    RpCycle(c, tr, ins, k, p);
    if tr[k].bus.busy {
      BusWindsDown(c, tr, ins, k);
      if tr[k + 1].bus.busy {
        OpKept(c, tr, ins, k);
      }
    } else if RpGrants(c, ins[k], GrantsAt(c, tr, ins, k), p).busif {
      ROfferTaken(c, tr, ins, k, p, RBusifOp(tr[k].rp[p], ins[k].rp[p]));
    }
  }

  lemma RpCycleLeft(c: Config, tr: seq<State>, ins: seq<Inputs>, s: nat, k: nat, p: nat)
    requires Run(c, tr, ins) && s <= k && k + 1 < |ins| && p < 2 * c.n && ReadHeld(c, tr, ins, s, k + 1, p)
    requires forall x | s <= x <= k :: RpServedAt(c, tr, ins, x, p)
    ensures |tr[k].rp| == |tr[k + 1].rp| == 2 * c.n
    ensures RpLeftAt(c, tr, ins, k + 1, p) < RpLeftAt(c, tr, ins, k, p)
  {
    assert RpServedAt(c, tr, ins, k, p);
    NoHitYet(c, tr, ins, k, p);
    HeldBefore(c, tr, ins, s, k, p);
    hide GrantsOf, Step, Initial, BusLeft, RpLeft, Legal, ReadHeld, RpServedAt, BusHit;
    if tr[k].bus.busy && tr[k].rp[p].RMissReplace? {
      ReplaceGoesOn(c, tr, ins, s, k, p);
    }
    if tr[k].bus.busy && tr[k].rp[p].RDirectWaitBusif? && tr[k].bus.op == DirectRead {
      ReadGoesOn(c, tr, ins, s, k, p);
    }
    RpOneCycle(c, tr, ins, k, p);
  }

  lemma HeldBefore(c: Config, tr: seq<State>, ins: seq<Inputs>, s: nat, k: nat, p: nat)
    requires Run(c, tr, ins) && s <= k && k + 1 < |ins| && p < 2 * c.n && ReadHeld(c, tr, ins, s, k + 1, p)
    ensures ReadHeld(c, tr, ins, s, k, p) && |ins[k].rp| == |ins[k + 1].rp| == 2 * c.n
    ensures ins[k].rp[p].rd && ins[k].rp[p].direct == ins[k + 1].rp[p].direct
  {
    hide GrantsOf, Step, Initial, SameRequest;
  }

  lemma RpOneCycle(c: Config, tr: seq<State>, ins: seq<Inputs>, k: nat, p: nat)
    requires Run(c, tr, ins) && k + 1 < |ins| && p < 2 * c.n && Legal(c, tr[k], ins[k]) && RpServedAt(c, tr, ins, k, p)
    requires |tr[k].rp| == |ins[k].rp| == |ins[k + 1].rp| == 2 * c.n
    requires ins[k].rp[p].rd && ins[k].rp[p].direct == ins[k + 1].rp[p].direct
    requires tr[k].bus.busy && (tr[k].rp[p].RMissReplace?
      || (tr[k].rp[p].RDirectWaitBusif? && tr[k].bus.op == DirectRead))
      ==> tr[k + 1].bus.busy
    ensures |tr[k + 1].rp| == 2 * c.n && RpLeftAt(c, tr, ins, k + 1, p) < RpLeftAt(c, tr, ins, k, p)
  {
    hide GrantsOf, Step, Initial, BusServed, BusLeft, RBusifOp, RpGrants, SameRequest, RpServed, RAck, RpLeft;
    hide RNextState;
    hide BusHit;
    RpCycle(c, tr, ins, k, p);
    ReadBusAfterOffer(c, tr, ins, k, p);
    var q, i, g := tr[k].rp[p], ins[k].rp[p], RpGrants(c, ins[k], GrantsAt(c, tr, ins, k), p);
    var left2 := BusLeft(tr[k + 1].bus, c.geo);
    RpServedAdvances(q, i, g, tr[k].bus.op, tr[k + 1].bus.op, BusLeft(tr[k].bus, c.geo), left2, OpBound(c.geo));
    SameReadLeft(tr[k + 1].rp[p], i, ins[k + 1].rp[p], tr[k + 1].bus.op, left2, OpBound(c.geo));
  }

  lemma SameReadLeft(q: RpState, i: RpIn, j: RpIn, op: BusOp, left: int, n: nat)
    requires i.direct == j.direct
    ensures RpLeft(q, i, op, left, n) == RpLeft(q, j, op, left, n)
  {}

  lemma RpLeftBound(c: Config, tr: seq<State>, ins: seq<Inputs>, k: nat, p: nat)
    requires Run(c, tr, ins) && k < |ins| && p < 2 * c.n && Legal(c, tr[k], ins[k])
    ensures |tr[k].rp| == |ins[k].rp| == 2 * c.n && 0 < RpLeftAt(c, tr, ins, k, p) <= 2 * OpBound(c.geo) + 7
  {
    hide GrantsOf, Step, Initial, BusLeft, SameRequest;
    BusLeftBound(c, tr, ins, k);
  }

  // A read of a word that is held from the cycle 's' in which the port is ready for it is acknowledged after at most
  // 4 * banks + 39 cycles in which port and bus interface are granted all that they ask for.
  lemma {:induction false} ReadIsAnswered(c: Config, tr: seq<State>, ins: seq<Inputs>, s: nat, k: nat, p: nat)
    requires Run(c, tr, ins) && s <= k < |ins| && p < 2 * c.n && ReadHeld(c, tr, ins, s, k, p)
    requires forall x | s <= x < k :: RpServedAt(c, tr, ins, x, p)
    ensures |tr[s].rp| == |ins[s].rp| == |tr[k].rp| == |ins[k].rp| == 2 * c.n
    ensures RpLeftAt(c, tr, ins, k, p) + k - s <= RpLeftAt(c, tr, ins, s, p)
    ensures k - s < 4 * c.geo.banks + 39
  {
    hide GrantsOf, Step, Initial, RpServedAt, RpLeft, Legal, RpLeftAt;
    RpLeftBound(c, tr, ins, s, p);
    if k > s {
      ReadIsAnswered(c, tr, ins, s, k - 1, p);
      RpCycleLeft(c, tr, ins, s, k - 1, p);
      assert tr[k - 1 + 1] == tr[k];
    }
    RunStepLegal(c, tr, ins, k);
    RpLeftBound(c, tr, ins, k, p);
  }

  lemma RunStepLegal(c: Config, tr: seq<State>, ins: seq<Inputs>, k: nat)
    requires Run(c, tr, ins) && k < |ins|
    ensures Legal(c, tr[k], ins[k])
  {}
}
