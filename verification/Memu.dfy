// The memory unit as a clocked transition system: the arbiter registers, 'n' write ports, 2n read ports and the bus
// interface (sysc/memu.cpp, MMemu). What the RAMs and the bus deliver is arbitrary input.

module MemuSpec {
  import opened Address
  import opened ArbiterSpec
  import opened BankArbiter
  import opened WritePortSpec
  import opened ReadPortSpec
  import opened BusIfSpec

  datatype Config = Config(n: nat, geo: Geometry) {
    ghost predicate Valid() {
      n > 0 && geo.Valid()
    }
  }

  // 'lastIn', 'lastWiadr' and 'pending' record the write port inputs and bank addresses of the cycle before, and
  // whether a port held a request that has not been acknowledged.
  datatype State = State(
    linelock: Lines, tagr: Lines, tagw: Lines, busif: Lines, banks: seq<Lines>, tagReady: bool,
    wp: seq<WpRegs>, rp: seq<RpState>, bus: BusRegs, lastIn: seq<WpIn>, lastWiadr: seq<nat>,
    pending: Lines)

  // 'busAck' and 'busTag' come from the bus and the tag RAM.
  datatype Inputs = Inputs(prio: nat, wp: seq<WpIn>, rp: seq<RpIn>, busAck: bool, busTag: CacheTag)

  ghost predicate Sized(c: Config, s: State) {
    && |s.linelock| == c.n + 1 && |s.tagr| == 3 * c.n + 1 && |s.tagw| == c.n + 1 && |s.busif| == 3 * c.n
    && |s.banks| == c.geo.banks && (forall b | 0 <= b < |s.banks| :: |s.banks[b]| == 3 * c.n + 1)
    && |s.wp| == |s.lastIn| == |s.pending| == c.n && |s.rp| == 2 * c.n && |s.lastWiadr| == 3 * c.n + 1
    && (s.bus.pc.VictimRead? ==> |s.bus.pc.left| == c.geo.banks)
    && (s.bus.pc.Fill? ==> |s.bus.pc.left| == c.geo.banks)
  }

  predicate HasRequest(i: WpIn) {
    i.wr || i.writeback || i.invalidate
  }

  predicate SameRequest(i: WpIn, j: WpIn) {
    i == j.(tag := i.tag, bankData := i.bankData, busy := i.busy)
  }

  // The rule for the CPUs: all inputs of a write port are held until the port acknowledges. The ports see the busy
  // line of the bus interface, and the read ports the word that it has read.
  ghost predicate Legal(c: Config, s: State, i: Inputs) {
    && c.Valid() && Sized(c, s)
    && i.prio < c.n && |i.wp| == c.n && |i.rp| == 2 * c.n
    && (forall p | 0 <= p < c.n :: i.wp[p].busy == s.bus.busy)
    && (forall p | 0 <= p < 2 * c.n :: i.rp[p].busy == s.bus.busy && i.rp[p].busifHit == BusHit(s.bus, i.rp[p].adr))
    && (forall p | 0 <= p < c.n :: s.pending[p] ==> SameRequest(i.wp[p], s.lastIn[p]))
  }

  // ---------- Requests and grants of one cycle ----------

  function TagrReqs(c: Config, s: State, i: Inputs): (r: Lines)
    requires Legal(c, s, i)
    ensures |r| == 3 * c.n + 1
  {
    seq(3 * c.n + 1, k requires 0 <= k < 3 * c.n + 1 =>
      if k < 2 * c.n then RReqTagr(s.rp[k], i.rp[k])
      else if k < 3 * c.n then ReqTagr(s.wp[k - 2 * c.n], i.wp[k - 2 * c.n])
      else BReqTagr(s.bus))
  }

  function TagwReqs(c: Config, s: State, i: Inputs): (r: Lines)
    requires Legal(c, s, i)
    ensures |r| == c.n + 1
  {
    seq(c.n + 1, k requires 0 <= k < c.n + 1 => if k < c.n then ReqTagw(s.wp[k]) else BReqTagw(s.bus))
  }

  function BusifReqs(c: Config, s: State, i: Inputs): (r: Lines)
    requires Legal(c, s, i)
    ensures |r| == 3 * c.n
  {
    seq(3 * c.n, k requires 0 <= k < 3 * c.n =>
      if k < 2 * c.n then RReqBusif(s.rp[k], i.rp[k]) else ReqBusif(s.wp[k - 2 * c.n], i.wp[k - 2 * c.n]))
  }

  function BankReqs(c: Config, s: State, i: Inputs, b: nat): (r: Lines)
    requires Legal(c, s, i)
    ensures |r| == 3 * c.n + 1
  {
    seq(3 * c.n + 1, k requires 0 <= k < 3 * c.n + 1 =>
      if k < 2 * c.n then RReqBank(s.rp[k], i.rp[k]) && c.geo.Bank(i.rp[k].adr) == b
      else if k < 3 * c.n then
        ReqBank(s.wp[k - 2 * c.n], i.wp[k - 2 * c.n]) && c.geo.Bank(i.wp[k - 2 * c.n].adr) == b
      else BReqBank(s.bus, b))
  }

  // Line lock requests. They depend on the bank grants 'banks' of the cycle.
  function LinelockReqs(c: Config, s: State, i: Inputs, banks: seq<Lines>): (r: Lines)
    requires Legal(c, s, i) && BanksSized(c, banks)
    ensures |r| == c.n + 1
  {
    seq(c.n + 1, k requires 0 <= k < c.n + 1 =>
      if k < c.n then ReqLinelock(s.wp[k], i.wp[k], banks[c.geo.Bank(i.wp[k].adr)][2 * c.n + k])
      else BReqLinelock(s.bus))
  }

  function WorkIndices(c: Config, s: State, i: Inputs): (ix: Indices)
    requires Legal(c, s, i)
    ensures |ix.wp| == c.n
  {
    Indices(seq(c.n, k requires 0 <= k < c.n => c.geo.Index(i.wp[k].adr)), c.geo.Index(s.bus.adr))
  }

  // The way and index addresses that all lines drive to the bank arbiter.
  function WayIndices(c: Config, s: State, i: Inputs): (a: seq<nat>)
    requires Legal(c, s, i)
    ensures |a| == 3 * c.n + 1
  {
    seq(3 * c.n + 1, k requires 0 <= k < 3 * c.n + 1 =>
      if k < 2 * c.n then c.geo.WayIndex(i.rp[k].adr, i.rp[k].tag.way)
      else if k < 3 * c.n then
        c.geo.WayIndex(i.wp[k - 2 * c.n].adr, TagOut(s.wp[k - 2 * c.n], i.wp[k - 2 * c.n]).way)
      else c.geo.WayIndex(s.bus.adr, s.bus.tag.way))
  }

  // The grant lines of one cycle.
  datatype Grants = Grants(linelock: Lines, tagr: Lines, tagw: Lines, busif: Lines, banks: seq<Lines>)

  ghost predicate BanksSized(c: Config, banks: seq<Lines>) {
    |banks| == c.geo.banks && forall b | 0 <= b < |banks| :: |banks[b]| == 3 * c.n + 1
  }

  ghost predicate GrantsSized(c: Config, g: Grants) {
    && |g.linelock| == c.n + 1 && |g.tagr| == 3 * c.n + 1 && |g.tagw| == c.n + 1 && |g.busif| == 3 * c.n
    && BanksSized(c, g.banks)
  }

  function AllOff(k: nat): (v: Lines)
    ensures |v| == k && NoneSet(v)
  {
    seq(k, _ => false)
  }

  // The arbiter's answer to the requests: tag, bank and bus interface first, then the line lock.
  function GrantsOf(c: Config, s: State, i: Inputs): (g: Grants)
    requires Legal(c, s, i)
    ensures GrantsSized(c, g)
  {
    var tagr := if s.tagReady then TagReadGrants(s.tagr, TagrReqs(c, s, i), TagwReqs(c, s, i), c.n)
      else AllOff(3 * c.n + 1);
    var tagw := if s.tagReady then TagWriteGrants(s.tagw, TagwReqs(c, s, i), tagr, c.n, i.prio) else AllOff(c.n + 1);
    var banks := seq(c.geo.banks, b requires 0 <= b < c.geo.banks =>
      BankGrants(s.banks[b], BankReqs(c, s, i, b), WayIndices(c, s, i), c.n, i.prio));
    Grants(
      LineLockGrants(s.linelock, LinelockReqs(c, s, i, banks), WorkIndices(c, s, i), i.prio),
      tagr, tagw, BusIfGrants(s.busif, BusifReqs(c, s, i), c.n, i.prio), banks)
  }

  // The grants as write port 'p', read port 'p' and the bus interface see them.
  function WpGrants(c: Config, i: Inputs, g: Grants, p: nat): WpGnt
    requires c.Valid() && GrantsSized(c, g) && p < c.n == |i.wp|
  {
    WpGnt(g.linelock[p], g.tagr[2 * c.n + p], g.tagw[p], g.banks[c.geo.Bank(i.wp[p].adr)][2 * c.n + p],
      g.busif[2 * c.n + p])
  }

  function RpGrants(c: Config, i: Inputs, g: Grants, p: nat): RpGnt
    requires c.Valid() && GrantsSized(c, g) && p < 2 * c.n == |i.rp|
  {
    RpGnt(g.tagr[p], g.banks[c.geo.Bank(i.rp[p].adr)][p], g.busif[p])
  }

  function BusGrants(c: Config, g: Grants): (r: BusGnt)
    requires GrantsSized(c, g)
    ensures |r.bank| == c.geo.banks
  {
    BusGnt(g.linelock[c.n], g.tagr[3 * c.n], g.tagw[c.n],
      seq(c.geo.banks, b requires 0 <= b < c.geo.banks => g.banks[b][3 * c.n]))
  }

  // The last line below 'k' that is set, or -1.
  function LastSet(v: Lines, k: nat): (w: int)
    requires k <= |v|
    ensures -1 <= w < k && (w >= 0 ==> v[w]) && forall j | w < j < k :: !v[j]
  {
    if k == 0 then -1 else if v[k - 1] then k - 1 else LastSet(v, k - 1)
  }

  // What the owner of the bus interface offers to it. A write port asks it not to take the line lock.
  function Offered(c: Config, s: State, i: Inputs, busif: Lines): BusIn
    requires Legal(c, s, i) && |busif| == 3 * c.n
  {
    var w := LastSet(busif, 3 * c.n);
    if w < 0 then BusIn(Nothing, false, 0, i.busAck, i.busTag)
    else if w < 2 * c.n then BusIn(RBusifOp(s.rp[w], i.rp[w]), false, i.rp[w].adr, i.busAck, i.busTag)
    else BusIn(BusifOp(s.wp[w - 2 * c.n], i.wp[w - 2 * c.n]), true, i.wp[w - 2 * c.n].adr, i.busAck, i.busTag)
  }

  // The write port that holds the line lock in this cycle, or -1.
  function LockOwner(c: Config, linelock: Lines): (w: int)
    requires |linelock| == c.n + 1
    ensures -1 <= w < c.n
  {
    LastSet(linelock, c.n)
  }

  // Every other port is told the address that is being written.
  function NextWp(c: Config, s: State, i: Inputs, g: Grants, p: nat): WpRegs
    requires Legal(c, s, i) && GrantsSized(c, g) && p < c.n
  {
    var w := LockOwner(c, g.linelock);
    NextRegs(s.wp[p], i.wp[p], WpGrants(c, i, g, p), w >= 0 && w != p, if w >= 0 then i.wp[w].adr else 0)
  }

  // ---------- One clock cycle ----------

  function Advance(c: Config, s: State, i: Inputs, g: Grants): State
    requires Legal(c, s, i) && GrantsSized(c, g)
  {
    State(
      g.linelock, g.tagr, g.tagw, g.busif, g.banks, true,
      seq(c.n, p requires 0 <= p < c.n => NextWp(c, s, i, g, p)),
      seq(2 * c.n, p requires 0 <= p < 2 * c.n => RNextState(s.rp[p], i.rp[p], RpGrants(c, i, g, p))),
      BusNext(s.bus, c.geo, Offered(c, s, i, g.busif), BusGrants(c, g)),
      i.wp, WayIndices(c, s, i),
      seq(c.n, p requires 0 <= p < c.n => HasRequest(i.wp[p]) && !Ack(s.wp[p], i.wp[p], WpGrants(c, i, g, p))))
  }

  function Step(c: Config, s: State, i: Inputs): State
    requires Legal(c, s, i)
  {
    Advance(c, s, i, GrantsOf(c, s, i))
  }

  ghost predicate Initial(c: Config, s: State) {
    && c.Valid() && Sized(c, s)
    && NoneSet(s.linelock) && NoneSet(s.tagr) && NoneSet(s.tagw) && NoneSet(s.busif) && NoneSet(s.pending)
    && (forall b | 0 <= b < |s.banks| :: NoneSet(s.banks[b]))
    && !s.tagReady && s.bus == RESET
    && (forall p | 0 <= p < c.n :: s.wp[p].state == Init && !s.wp[p].linkValid)
    && (forall p | 0 <= p < 2 * c.n :: s.rp[p] == RInit)
  }

  // A run: the states tr[0], tr[1], ... under the inputs ins[0], ins[1], ...
  ghost predicate Run(c: Config, tr: seq<State>, ins: seq<Inputs>) {
    && |tr| == |ins| + 1 && Initial(c, tr[0])
    && forall k | 0 <= k < |ins| :: Legal(c, tr[k], ins[k]) && tr[k + 1] == Step(c, tr[k], ins[k])
  }
}
