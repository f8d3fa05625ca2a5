// The operations of the bus interface over whole runs: what each one does on bus, banks and tags, and which operation
// the port it is done for has waited for.

module MemuOps {
  import opened Address
  import opened ArbiterSpec
  import opened ReadPortSpec
  import opened BusIfSpec
  import opened MemuSpec
  import opened MemuProofs
  import opened MemuTags
  import opened MemuSafety
  import opened BusIfLog

  // The bus interface accepts an operation in cycle 's' and is at it up to cycle 'k'.
  ghost predicate Busy(c: Config, tr: seq<State>, ins: seq<Inputs>, s: nat, k: nat)
    requires Run(c, tr, ins) && k < |tr|
  {
    s < k && !tr[s].bus.busy && forall x | s < x <= k :: tr[x].bus.busy
  }

  // What it has done before cycle 'k'.
  ghost function LogOf(c: Config, tr: seq<State>, ins: seq<Inputs>, s: nat, k: nat): (log: BusLog)
    requires Run(c, tr, ins) && s < k < |tr|
    ensures LogSized(c.geo, log)
    decreases k
  {
    if k == s + 1 then NoEvents(c.geo)
    else
      var g := GrantsAt(c, tr, ins, k - 1);
      LogNext(LogOf(c, tr, ins, s, k - 1), tr[k - 1].bus, c.geo, Offered(c, tr[k - 1], ins[k - 1], g.busif),
        BusGrants(c, g))
  }

  // The bus acknowledges only the transfers that are requested, in the cycles from 's' to 'k'.
  predicate AcksStrobes(tr: seq<State>, ins: seq<Inputs>, s: nat, k: nat)
    requires k <= |ins| < |tr|
  {
    forall x | s < x < k :: ins[x].busAck ==> WbStb(tr[x].bus)
  }

  // One cycle of the bus interface in a run.
  lemma BusCycle(c: Config, tr: seq<State>, ins: seq<Inputs>, k: nat)
    requires Run(c, tr, ins) && k < |ins|
    ensures Legal(c, tr[k], ins[k]) && BusOk(tr[k].bus) && BusSized(tr[k].bus, c.geo)
    ensures var g := GrantsAt(c, tr, ins, k);
      tr[k + 1].bus == BusNext(tr[k].bus, c.geo, Offered(c, tr[k], ins[k], g.busif), BusGrants(c, g))
    ensures BusOk(tr[k + 1].bus) && BusSized(tr[k + 1].bus, c.geo)
  {
    RunCycle(c, tr, ins, k);
    hide GrantsOf, Step, Initial, Granted, PendingOk, BusifOk, SpecialOk, LockOk, TagOk, NextWp, RNextState, Offered;
    hide WayIndices, SameRequest, MemuBanks.BanksOk;
    var g := GrantsAt(c, tr, ins, k);
    BusStaysOk(tr[k].bus, c.geo, Offered(c, tr[k], ins[k], g.busif), BusGrants(c, g));
    hide BusNext, BusOk;
  }

  lemma BusyBefore(c: Config, tr: seq<State>, ins: seq<Inputs>, s: nat, k: nat)
    requires Run(c, tr, ins) && k < |tr| && Busy(c, tr, ins, s, k)
    ensures |tr| == |ins| + 1 && s < k && tr[k].bus.busy && !tr[s].bus.busy && c.Valid() && c.geo.Valid()
    ensures s + 1 < k ==> Busy(c, tr, ins, s, k - 1) && tr[k - 1].bus.busy
  {
    hide Step, Legal;
  }

  lemma LogOfNext(c: Config, tr: seq<State>, ins: seq<Inputs>, s: nat, k: nat)
    requires Run(c, tr, ins) && s < k < |ins| && Legal(c, tr[k], ins[k])
    ensures var g := GrantsAt(c, tr, ins, k);
      LogOf(c, tr, ins, s, k + 1) ==
      LogNext(LogOf(c, tr, ins, s, k), tr[k].bus, c.geo, Offered(c, tr[k], ins[k], g.busif), BusGrants(c, g))
  {
    hide GrantsOf, Step, Initial, LogNext, Offered, BusGrants, Legal;
  }

  lemma OfferedAck(c: Config, s: State, i: Inputs, busif: Lines)
    requires Legal(c, s, i) && |busif| == 3 * c.n
    ensures Offered(c, s, i, busif).ack == i.busAck && Offered(c, s, i, busif).tag == i.busTag
  {}

  // One cycle of an operation.
  lemma OperationCycle(c: Config, tr: seq<State>, ins: seq<Inputs>, s: nat, k: nat)
    requires Run(c, tr, ins) && k < |ins| && Busy(c, tr, ins, s, k)
    requires Uncached(tr[s + 1].bus.op) && ins[k].busAck ==> WbStb(tr[k].bus)
    requires Progress(c.geo, tr[s + 1].bus.op, tr[s + 1].bus.adr, tr[k].bus, LogOf(c, tr, ins, s, k))
    ensures var op, a, log := tr[s + 1].bus.op, tr[s + 1].bus.adr, LogOf(c, tr, ins, s, k + 1);
      if tr[k + 1].bus.busy then Progress(c.geo, op, a, tr[k + 1].bus, log) else Complete(c.geo, op, a, log)
  {
    BusCycle(c, tr, ins, k);
    LogOfNext(c, tr, ins, s, k);
    hide GrantsOf, Step, Initial, Progress, Complete, LogNext, LogOf, BusNext, Offered, BusGrants, Legal, WbStb;
    hide Uncached;
    var g := GrantsAt(c, tr, ins, k);
    OfferedAck(c, tr[k], ins[k], g.busif);
    OperationStep(c.geo, tr[s + 1].bus.op, tr[s + 1].bus.adr, tr[k].bus, Offered(c, tr[k], ins[k], g.busif),
      BusGrants(c, g), LogOf(c, tr, ins, s, k));
  }

  // While the bus interface is at an operation, it has done just what belongs to its place in it.
  lemma {:induction false} RunProgress(c: Config, tr: seq<State>, ins: seq<Inputs>, s: nat, k: nat)
    requires Run(c, tr, ins) && k < |tr| && Busy(c, tr, ins, s, k)
    requires Uncached(tr[s + 1].bus.op) ==> AcksStrobes(tr, ins, s, k)
    ensures c.Valid() && Progress(c.geo, tr[s + 1].bus.op, tr[s + 1].bus.adr, tr[k].bus, LogOf(c, tr, ins, s, k))
    decreases k
  {
    hide *;
    BusyBefore(c, tr, ins, s, k);
    if k == s + 1 {
      RunProgressStarts(c, tr, ins, s);
    } else {
      AcksBefore(tr, ins, s, k);
      RunProgress(c, tr, ins, s, k - 1);
      OperationCycle(c, tr, ins, s, k - 1);
    }
  }

  lemma AcksBefore(tr: seq<State>, ins: seq<Inputs>, s: nat, k: nat)
    requires s + 1 < k <= |ins| < |tr|
    ensures AcksStrobes(tr, ins, s, k) ==>
      AcksStrobes(tr, ins, s, k - 1) && (ins[k - 1].busAck ==> WbStb(tr[k - 1].bus))
  {}

  lemma RunProgressStarts(c: Config, tr: seq<State>, ins: seq<Inputs>, s: nat)
    requires Run(c, tr, ins) && s < |ins| && Busy(c, tr, ins, s, s + 1)
    ensures c.Valid() && Progress(c.geo, tr[s + 1].bus.op, tr[s + 1].bus.adr, tr[s + 1].bus,
      LogOf(c, tr, ins, s, s + 1))
  {
    BusCycle(c, tr, ins, s);
    assert LogOf(c, tr, ins, s, s + 1) == NoEvents(c.geo);
    hide GrantsOf, Step, Initial, Progress, BusNext, Offered, BusGrants, LogOf, Run;
    var g := GrantsAt(c, tr, ins, s);
    OperationStarts(tr[s].bus, c.geo, Offered(c, tr[s], ins[s], g.busif), BusGrants(c, g));
  }

  // Over all runs: when the bus interface gets ready again after cycle 'k', its operation is complete. All words of
  // the new line have been read from the bus, once each; if the tag that was sampled is dirty, all banks of the old
  // line have been read, and its words written to the bus, once each; all banks have been filled; and the tag has
  // been written.
  lemma OperationCompletes(c: Config, tr: seq<State>, ins: seq<Inputs>, s: nat, k: nat)
    requires Run(c, tr, ins) && k < |ins| && Busy(c, tr, ins, s, k) && !tr[k + 1].bus.busy
    requires Uncached(tr[s + 1].bus.op) ==> AcksStrobes(tr, ins, s, k + 1)
    ensures c.Valid() && Complete(c.geo, tr[s + 1].bus.op, tr[s + 1].bus.adr, LogOf(c, tr, ins, s, k + 1))
  {
    hide GrantsOf, Step, Initial, Progress, LogOf, Uncached, WbStb, Complete, Legal;
    RunProgress(c, tr, ins, s, k);
    OperationCycle(c, tr, ins, s, k);
  }

  lemma {:induction false} RunUncachedPc(c: Config, tr: seq<State>, ins: seq<Inputs>, k: nat)
    requires Run(c, tr, ins) && k < |tr|
    ensures UncachedPc(tr[k].bus)
  {
    hide GrantsOf, Step, BusNext, UncachedPc, Legal;
    if k == 0 {
      ResetPc();
    } else {
      RunUncachedPc(c, tr, ins, k - 1);
      BusCycle(c, tr, ins, k - 1);
      var g := GrantsAt(c, tr, ins, k - 1);
      UncachedStep(tr[k - 1].bus, c.geo, Offered(c, tr[k - 1], ins[k - 1], g.busif), BusGrants(c, g));
      assert tr[k - 1 + 1] == tr[k];
    }
  }

  lemma ResetPc()
    ensures UncachedPc(RESET)
  {}

  // The bus interface keeps to its operation.
  lemma {:induction false} BusyKeepsOp(c: Config, tr: seq<State>, ins: seq<Inputs>, s: nat, k: nat)
    requires Run(c, tr, ins) && k < |tr| && Busy(c, tr, ins, s, k)
    ensures tr[k].bus.op == tr[s + 1].bus.op
    ensures Uncached(tr[k].bus.op) ==> tr[k].bus.adr == tr[s + 1].bus.adr
    decreases k
  {
    hide *;
    BusyBefore(c, tr, ins, s, k);
    if k > s + 1 {
      BusyKeepsOp(c, tr, ins, s, k - 1);
      OpKept(c, tr, ins, k - 1);
    }
  }

  lemma OpKept(c: Config, tr: seq<State>, ins: seq<Inputs>, k: nat)
    requires Run(c, tr, ins) && k < |ins| && tr[k].bus.busy && tr[k + 1].bus.busy
    ensures tr[k + 1].bus.op == tr[k].bus.op && (Uncached(tr[k].bus.op) ==> tr[k + 1].bus.adr == tr[k].bus.adr)
  {
    BusCycle(c, tr, ins, k);
    RunUncachedPc(c, tr, ins, k);
    hide Run, GrantsOf, BusNext, UncachedPc, Offered, BusGrants;
    var g := GrantsAt(c, tr, ins, k);
    UncachedStep(tr[k].bus, c.geo, Offered(c, tr[k], ins[k], g.busif), BusGrants(c, g));
  }

  // Whenever the bus interface asks for a bank to fill it, the old line has been read from all banks if its tag is
  // dirty, and the tag has been made invalid.
  lemma BankFilledLate(c: Config, tr: seq<State>, ins: seq<Inputs>, s: nat, k: nat, bank: nat)
    requires Run(c, tr, ins) && k < |tr| && Busy(c, tr, ins, s, k) && BBankWr(tr[k].bus, bank)
    ensures c.Valid() && ReadyToFill(c.geo, tr[s + 1].bus.op, tr[s + 1].bus.adr, LogOf(c, tr, ins, s, k))
  {
    RunUncachedPc(c, tr, ins, k);
    BusyKeepsOp(c, tr, ins, s, k);
    assert tr[k].bus.pc.Fill?;
    hide GrantsOf, Step, Initial, Progress, LogOf, BBankWr, ReadyToFill;
    RunProgress(c, tr, ins, s, k);
    FillsComeLate(c.geo, tr[s + 1].bus.op, tr[s + 1].bus.adr, tr[k].bus, LogOf(c, tr, ins, s, k), bank);
  }

  // Whenever the bus interface asks for a bank, it drives the index of the line it was asked for, and the way of the
  // tag that it has sampled in this operation.
  lemma BankOfLine(c: Config, tr: seq<State>, ins: seq<Inputs>, s: nat, k: nat, bank: nat)
    requires Run(c, tr, ins) && k < |ins| && Legal(c, tr[k], ins[k]) && Busy(c, tr, ins, s, k)
    requires BReqBank(tr[k].bus, bank)
    ensures c.Valid() && |LogOf(c, tr, ins, s, k).samples| == 1
    ensures WayIndices(c, tr[k], ins[k])[3 * c.n] ==
      c.geo.WayIndex(tr[s + 1].bus.adr, LogOf(c, tr, ins, s, k).samples[0].way)
  {
    hide GrantsOf, Step, Initial, Progress, LogOf, BReqBank, WayIndices, Legal, Busy, UncachedPc, AcksStrobes;
    BusyBefore(c, tr, ins, s, k);
    RunUncachedPc(c, tr, ins, k);
    BusyKeepsOp(c, tr, ins, s, k);
    BankUserPc(tr[k].bus, bank);
    DrivenWay(c, tr[k], ins[k]);
    RunProgress(c, tr, ins, s, k);
    BanksOfLine(c.geo, tr[s + 1].bus.op, tr[s + 1].bus.adr, tr[k].bus, LogOf(c, tr, ins, s, k));
  }

  lemma BankUserPc(b: BusRegs, bank: nat)
    requires UncachedPc(b) && BReqBank(b, bank)
    ensures (b.pc.VictimRead? || b.pc.Fill?) && !Uncached(b.op)
  {}

  lemma DrivenWay(c: Config, s: State, i: Inputs)
    requires Legal(c, s, i)
    ensures WayIndices(c, s, i)[3 * c.n] == c.geo.WayIndex(s.bus.adr, s.bus.tag.way)
  {
    hide Geometry.WayIndex, SameRequest;
  }

  // ---------- Operations end ----------

  lemma {:induction false} BusyBegins(c: Config, tr: seq<State>, ins: seq<Inputs>, k: nat) returns (s: nat)
    requires Run(c, tr, ins) && k < |tr| && tr[k].bus.busy
    ensures s < k && Busy(c, tr, ins, s, k)
  {
    hide Step, Legal, Initial;
    if k == 0 {
      InitialReset(c, tr[0]);
      assert false;
    } else if tr[k - 1].bus.busy {
      s := BusyBegins(c, tr, ins, k - 1);
      BusyGrows(c, tr, ins, s, k - 1);
    } else {
      s := k - 1;
    }
  }

  lemma InitialReset(c: Config, s: State)
    requires Initial(c, s)
    ensures s.bus == RESET && !s.bus.busy
  {}

  lemma BusyGrows(c: Config, tr: seq<State>, ins: seq<Inputs>, s: nat, k: nat)
    requires Run(c, tr, ins) && k + 1 < |tr| && Busy(c, tr, ins, s, k) && tr[k + 1].bus.busy
    ensures Busy(c, tr, ins, s, k + 1)
  {
    hide Step, Legal, Initial;
  }

  // A cycle in which the bus interface is granted all that it asks for, and its bus transfer is acknowledged.
  ghost predicate BusServed(c: Config, tr: seq<State>, ins: seq<Inputs>, k: nat)
    requires Run(c, tr, ins) && k < |ins|
  {
    var g := GrantsAt(c, tr, ins, k);
    Served(tr[k].bus, c.geo, Offered(c, tr[k], ins[k], g.busif), BusGrants(c, g))
  }

  ghost function ServedCycles(c: Config, tr: seq<State>, ins: seq<Inputs>, s: nat, k: nat): nat
    requires Run(c, tr, ins) && s < k < |tr|
    decreases k
  {
    if k == s + 1 then 0
    else ServedCycles(c, tr, ins, s, k - 1) + if BusServed(c, tr, ins, k - 1) then 1 else 0
  }

  lemma BusyPcOk(c: Config, tr: seq<State>, ins: seq<Inputs>, s: nat, k: nat)
    requires Run(c, tr, ins) && k < |tr| && Busy(c, tr, ins, s, k)
    ensures c.Valid() && PcOk(tr[k].bus, c.geo) && BusSized(tr[k].bus, c.geo)
  {
    hide *;
    BusyBefore(c, tr, ins, s, k);
    BusyKeepsOp(c, tr, ins, s, k);
    if Uncached(tr[s + 1].bus.op) {
      RunUncachedPc(c, tr, ins, k);
      BusCycle(c, tr, ins, k - 1);
      UncachedPcOk(tr[k].bus, c.geo);
    } else {
      RunProgress(c, tr, ins, s, k);
      ProgressPc(c.geo, tr[s + 1].bus.op, tr[s + 1].bus.adr, tr[k].bus, LogOf(c, tr, ins, s, k));
    }
  }

  lemma UncachedPcOk(b: BusRegs, geo: Geometry)
    requires UncachedPc(b) && Uncached(b.op)
    ensures PcOk(b, geo) && BusSized(b, geo)
  {}

  lemma ServedNext(c: Config, tr: seq<State>, ins: seq<Inputs>, s: nat, k: nat)
    requires Run(c, tr, ins) && k < |ins| && Busy(c, tr, ins, s, k) && tr[k + 1].bus.busy
    ensures Remaining(tr[k + 1].bus.pc, c.geo) <= Remaining(tr[k].bus.pc, c.geo)
    ensures BusServed(c, tr, ins, k) ==> Remaining(tr[k + 1].bus.pc, c.geo) < Remaining(tr[k].bus.pc, c.geo)
  {
    BusyPcOk(c, tr, ins, s, k);
    BusCycle(c, tr, ins, k);
    hide GrantsOf, Step, Initial, Legal, Offered, BusGrants, BusNext, PcOk, Served, Remaining;
    var g := GrantsAt(c, tr, ins, k);
    ServedCycleAdvances(tr[k].bus, c.geo, Offered(c, tr[k], ins[k], g.busif), BusGrants(c, g));
  }

  // Every operation ends: it never goes back, and it takes at most two cycles per bank and sixteen more in which all
  // that it asks for is granted.
  lemma {:induction false} OperationEnds(c: Config, tr: seq<State>, ins: seq<Inputs>, s: nat, k: nat)
    requires Run(c, tr, ins) && k < |tr| && Busy(c, tr, ins, s, k)
    ensures ServedCycles(c, tr, ins, s, k) + Remaining(tr[k].bus.pc, c.geo) <= 2 * c.geo.banks + 16
    ensures ServedCycles(c, tr, ins, s, k) < 2 * c.geo.banks + 16
    decreases k
  {
    hide *;
    BusyBefore(c, tr, ins, s, k);
    BusyPcOk(c, tr, ins, s, k);
    RemainingBound(tr[k].bus, c.geo);
    if k == s + 1 {
      NoServedCycle(c, tr, ins, s);
    } else {
      OperationEnds(c, tr, ins, s, k - 1);
      ServedNext(c, tr, ins, s, k - 1);
      ServedCyclesNext(c, tr, ins, s, k);
    }
  }

  lemma NoServedCycle(c: Config, tr: seq<State>, ins: seq<Inputs>, s: nat)
    requires Run(c, tr, ins) && s + 1 < |tr|
    ensures ServedCycles(c, tr, ins, s, s + 1) == 0
  {
    hide GrantsOf, Step, Initial, Legal, BusServed;
  }

  lemma ServedCyclesNext(c: Config, tr: seq<State>, ins: seq<Inputs>, s: nat, k: nat)
    requires Run(c, tr, ins) && s + 1 < k < |tr|
    ensures ServedCycles(c, tr, ins, s, k) ==
      ServedCycles(c, tr, ins, s, k - 1) + if BusServed(c, tr, ins, k - 1) then 1 else 0
  {
    hide GrantsOf, Step, Initial, Legal, BusServed;
  }

  lemma RemainingBound(b: BusRegs, geo: Geometry)
    requires PcOk(b, geo)
    ensures 0 < Remaining(b.pc, geo) <= 2 * geo.banks + 16
  {}
}
