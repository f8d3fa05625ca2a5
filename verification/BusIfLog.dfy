// What happens on the bus, the banks and the tag RAM during one operation of the bus interface, and what a whole
// operation amounts to (sysc/memu.cpp, MBusIf::MainThread).

module BusIfLog {
  import opened Words
  import opened Address
  import opened ArbiterSpec
  import opened WritePortSpec
  import opened BusIfSpec
  import opened MemuProofs

  // One word on the bus.
  datatype Transfer = Transfer(we: bool, adr: Adr)

  // The transfers acknowledged on the bus, the tags taken from the tag RAM, the banks read and filled, and the tags
  // driven to the tag RAM while they are written, all in their order.
  datatype BusLog = BusLog(transfers: seq<Transfer>, samples: seq<CacheTag>, read: Lines, filled: Lines,
    tags: seq<CacheTag>)

  function NoBanks(geo: Geometry): (r: Lines)
    ensures |r| == geo.banks
  {
    seq(geo.banks, _ => false)
  }

  function NoEvents(geo: Geometry): BusLog {
    BusLog([], [], NoBanks(geo), NoBanks(geo), [])
  }

  ghost predicate LogSized(geo: Geometry, log: BusLog) {
    |log.read| == |log.filled| == geo.banks
  }

  // The events of one more cycle.
  function LogNext(log: BusLog, b: BusRegs, geo: Geometry, i: BusIn, g: BusGnt): (r: BusLog)
    requires geo.Valid() && LogSized(geo, log) && |g.bank| == geo.banks
    ensures LogSized(geo, r)
  {
    BusLog(
      if WbStb(b) && i.ack then log.transfers + [Transfer(WbWe(b), WbAdr(b, geo))] else log.transfers,
      if b.pc.TagRead? then log.samples + [i.tag] else log.samples,
      seq(geo.banks, k requires 0 <= k < geo.banks => log.read[k] || (BBankRd(b, k) && g.bank[k])),
      seq(geo.banks, k requires 0 <= k < geo.banks => log.filled[k] || (BBankWr(b, k) && g.bank[k])),
      if BTagWr(b) then log.tags + [BTagOut(b, geo)] else log.tags)
  }

  // ---------- Whole operations ----------

  // All words of a line, from the one at 'a' on.
  function LineReads(geo: Geometry, a: Adr): (r: seq<Transfer>)
    requires geo.Valid()
    ensures |r| == geo.banks
  {
    SplitComposes(geo, a);
    seq(geo.banks, n requires 0 <= n < geo.banks =>
      Transfer(false, geo.Compose(geo.Tag(a), geo.Index(a), (geo.Bank(a) + n) % geo.banks)))
  }

  // All words of the line that the cache held under the tag address 'tadr'.
  function LineWrites(geo: Geometry, tadr: nat, a: Adr): (r: seq<Transfer>)
    requires geo.Valid()
    ensures |r| == geo.banks
  {
    seq(geo.banks, n requires 0 <= n < geo.banks => Transfer(true, geo.Compose(tadr % geo.tags, geo.Index(a), n)))
  }

  // The sampled tag is dirty, and the operation is not one that drops its line.
  predicate WritesBack(op: BusOp, t: CacheTag) {
    t.dirty && op != Invalidate
  }

  function TransfersOf(geo: Geometry, op: BusOp, a: Adr, t: CacheTag): seq<Transfer>
    requires geo.Valid()
  {
    (if op == ReplaceLine then LineReads(geo, a) else []) + (if WritesBack(op, t) then LineWrites(geo, t.tadr, a)
      else [])
  }

  // The line is valid after a replacement, and after a writeback if it was; it is never dirty.
  function NewTag(geo: Geometry, op: BusOp, a: Adr, t: CacheTag): CacheTag
    requires geo.Valid()
  {
    CacheTag(op == ReplaceLine || (op == Writeback && t.valid), false, geo.Tag(a), t.way)
  }

  predicate Uncached(op: BusOp) {
    op == DirectRead || op == DirectWrite
  }

  // What the whole operation 'op' at 'a' has done. Each tag is written for two cycles.
  ghost predicate Complete(geo: Geometry, op: BusOp, a: Adr, log: BusLog)
    requires geo.Valid()
  {
    if Uncached(op) then
      log == NoEvents(geo).(transfers := [Transfer(op == DirectWrite, a)])
    else
      && |log.samples| == 1
      && var t := log.samples[0];
      && log.transfers == TransfersOf(geo, op, a, t)
      && log.read == (if WritesBack(op, t) then AllBanks(geo) else NoBanks(geo))
      && log.filled == (if op == ReplaceLine then AllBanks(geo) else NoBanks(geo))
      && log.tags == (if op == ReplaceLine then [t.(valid := false), t.(valid := false)] else [])
           + [NewTag(geo, op, a, t), NewTag(geo, op, a, t)]
  }

  // When banks are filled, the new line has been read from the bus, the old one from the banks if it is dirty, and its
  // tag has been made invalid.
  ghost predicate ReadyToFill(geo: Geometry, op: BusOp, a: Adr, log: BusLog)
    requires geo.Valid()
  {
    && op == ReplaceLine && |log.samples| == 1
    && var t := log.samples[0];
    && log.transfers == LineReads(geo, a) && (t.dirty ==> log.read == AllBanks(geo))
    && log.tags == [t.(valid := false), t.(valid := false)]
  }

  // ---------- The progress of an operation ----------

  ghost predicate SameLine(geo: Geometry, a: Adr, b: Adr)
    requires geo.Valid()
  {
    geo.Tag(a) == geo.Tag(b) && geo.Index(a) == geo.Index(b)
  }

  // The operation before its line is complete.
  ghost predicate EarlyProgress(geo: Geometry, op: BusOp, a: Adr, b: BusRegs, log: BusLog)
    requires geo.Valid()
  {
    match b.pc
    case Idle | LockWait | TagWait | TagRead =>
      log == NoEvents(geo) && b.adr == a && (b.pc.LockWait? ==> !b.noLinelock)
    case TagHave => log == NoEvents(geo).(samples := [b.tag]) && b.adr == a
    case BusRead(done) =>
      && op == ReplaceLine && done < geo.banks
      && log == NoEvents(geo).(samples := [b.tag], transfers := LineReads(geo, a)[..done])
      && b.adr == if done == 0 then a else LineReads(geo, a)[done - 1].adr
    case _ => false
  }

  // Banks are read and filled.
  ghost predicate BankProgress(geo: Geometry, op: BusOp, a: Adr, b: BusRegs, log: BusLog)
    requires geo.Valid()
  {
    var inv := b.tag.(valid := false);
    && log.samples == [b.tag]
    && log.transfers == (if op == ReplaceLine then LineReads(geo, a) else [])
    && match b.pc
    case VictimRead(req, left) =>
      && WritesBack(op, b.tag) && |req| == |left| == |log.read| == geo.banks
      && (forall k | 0 <= k < geo.banks :: (left[k] ==> req[k]) && (!left[k] ==> log.read[k]))
      && log.filled == NoBanks(geo) && log.tags == []
    case InvWait | Inv1 | Inv2 =>
      && op == ReplaceLine && log.read == (if WritesBack(op, b.tag) then AllBanks(geo) else NoBanks(geo))
      && log.filled == NoBanks(geo) && log.tags == if b.pc.Inv2? then [inv] else []
    case Fill(left) =>
      && op == ReplaceLine && log.read == (if WritesBack(op, b.tag) then AllBanks(geo) else NoBanks(geo))
      && |left| == |log.filled| == geo.banks && (forall k | 0 <= k < geo.banks :: log.filled[k] == !left[k])
      && log.tags == [inv, inv]
    case _ => false
  }

  // The new tag is written, and the old line to the bus.
  ghost predicate LateProgress(geo: Geometry, op: BusOp, a: Adr, b: BusRegs, log: BusLog)
    requires geo.Valid()
  {
    var inv, clean := b.tag.(valid := false), NewTag(geo, op, a, b.tag);
    var before := if op == ReplaceLine then [inv, inv] else [];
    var loaded := if op == ReplaceLine then LineReads(geo, a) else [];
    && log.samples == [b.tag]
    && log.read == (if WritesBack(op, b.tag) then AllBanks(geo) else NoBanks(geo))
    && log.filled == (if op == ReplaceLine then AllBanks(geo) else NoBanks(geo))
    && match b.pc
    case NewWait | New1 => log.tags == before && log.transfers == loaded
    case New2 => log.tags == before + [clean] && log.transfers == loaded
    case VictimPause => WritesBack(op, b.tag) && log.tags == before + [clean, clean] && log.transfers == loaded
    case VictimWrite(done) =>
      && WritesBack(op, b.tag) && done < geo.banks && log.tags == before + [clean, clean]
      && log.transfers == loaded + LineWrites(geo, b.tag.tadr, a)[..done]
    case _ => false
  }

  // The bus interface is in the operation 'op' at 'a', and 'log' is what it has done.
  ghost predicate Progress(geo: Geometry, op: BusOp, a: Adr, b: BusRegs, log: BusLog)
    requires geo.Valid()
  {
    && b.busy && b.op == op && op != Nothing
    && if Uncached(op) then
         && b.adr == a
         && match b.pc
            case Idle | DirectWait => log == NoEvents(geo)
            case DirectDone => op == DirectRead && log == NoEvents(geo).(transfers := [Transfer(false, a)])
            case _ => false
       else
         && SameLine(geo, b.adr, a) && (BeforeVictim(b.pc) && !b.pc.Idle? ==> !b.writeVictim)
         && (EarlyProgress(geo, op, a, b, log) || BankProgress(geo, op, a, b, log) || LateProgress(geo, op, a, b, log))
         && (!BeforeVictim(b.pc) ==> b.writeVictim == WritesBack(op, b.tag))
         && (!BeforeVictim(b.pc) && op == ReplaceLine ==> b.adr == LineReads(geo, a)[geo.banks - 1].adr)
  }

  // It is not yet known whether the old line has to be written back.
  predicate BeforeVictim(pc: Pc) {
    pc.Idle? || pc.LockWait? || pc.TagWait? || pc.TagRead? || pc.TagHave? || pc.BusRead?
  }

  // ---------- One cycle ----------

  lemma ReadNext(geo: Geometry, a: Adr, n: nat)
    requires geo.Valid() && 0 < n < geo.banks
    ensures NextWord(geo, LineReads(geo, a)[n - 1].adr) == LineReads(geo, a)[n].adr
  {
    SplitComposes(geo, a);
    var x := (geo.Bank(a) + n - 1) % geo.banks;
    ComposeSplits(geo, geo.Tag(a), geo.Index(a), x);
    WrapNext(geo.Bank(a) + n - 1, geo.banks);
  }

  lemma WrapNext(x: nat, m: nat)
    requires m > 0
    ensures (x + 1) % m == if x % m + 1 == m then 0 else x % m + 1
  {
    DivModOf(x / m, x % m, m);
    if x % m + 1 == m {
      assert x + 1 == (x / m + 1) * m + 0;
      DivModOf(x / m + 1, 0, m);
    } else {
      DivModOf(x / m, x % m + 1, m);
    }
  }

  lemma ReadAt(geo: Geometry, a: Adr, n: nat)
    requires geo.Valid() && n < geo.banks
    ensures LineReads(geo, a)[0].adr == WordAdr(a) && SameLine(geo, LineReads(geo, a)[n].adr, a)
  {
    SplitComposes(geo, a);
    ComposeSplits(geo, geo.Tag(a), geo.Index(a), (geo.Bank(a) + n) % geo.banks);
    assert geo.Bank(a) % geo.banks == geo.Bank(a) by { DivModOf(0, geo.Bank(a), geo.banks); }
  }

  // An accepted operation has done nothing yet.
  lemma OperationStarts(b: BusRegs, geo: Geometry, i: BusIn, g: BusGnt)
    requires geo.Valid() && |g.bank| == geo.banks && BusSized(b, geo) && BusOk(b) && !b.busy
    requires BusNext(b, geo, i, g).busy
    ensures var n := BusNext(b, geo, i, g);
      Progress(geo, n.op, n.adr, n, NoEvents(geo)) && n.op == i.op && n.adr == i.adr
  {}

  // What one cycle makes of the operation: it goes on, or it is complete.
  ghost predicate Advanced(geo: Geometry, op: BusOp, a: Adr, b: BusRegs, log: BusLog)
    requires geo.Valid()
  {
    if b.busy then Progress(geo, op, a, b, log) else Complete(geo, op, a, log)
  }

  lemma DirectStep(geo: Geometry, op: BusOp, a: Adr, b: BusRegs, i: BusIn, g: BusGnt, log: BusLog)
    requires geo.Valid() && |g.bank| == geo.banks && BusSized(b, geo) && LogSized(geo, log)
    requires Progress(geo, op, a, b, log) && Uncached(op) && (i.ack ==> WbStb(b))
    ensures Advanced(geo, op, a, BusNext(b, geo, i, g), LogNext(log, b, geo, i, g))
  {
    assert LogNext(log, b, geo, i, g).read == NoBanks(geo) && LogNext(log, b, geo, i, g).filled == NoBanks(geo);
  }

  // The pc alone changes, and nothing happens but what is given.
  lemma LogQuiet(geo: Geometry, b: BusRegs, i: BusIn, g: BusGnt, log: BusLog)
    requires geo.Valid() && |g.bank| == geo.banks && LogSized(geo, log)
    ensures var l := LogNext(log, b, geo, i, g);
      && (!b.pc.VictimRead? ==> l.read == log.read) && (!b.pc.Fill? ==> l.filled == log.filled)
      && (!WbStb(b) || !i.ack ==> l.transfers == log.transfers) && (!b.pc.TagRead? ==> l.samples == log.samples)
      && (!BTagWr(b) ==> l.tags == log.tags)
  {}

  lemma EarlyStep(geo: Geometry, op: BusOp, a: Adr, b: BusRegs, i: BusIn, g: BusGnt, log: BusLog)
    requires geo.Valid() && |g.bank| == geo.banks && BusSized(b, geo) && LogSized(geo, log)
    requires Progress(geo, op, a, b, log) && !Uncached(op) && EarlyProgress(geo, op, a, b, log) && !b.pc.BusRead?
    ensures Advanced(geo, op, a, BusNext(b, geo, i, g), LogNext(log, b, geo, i, g))
  {
    LogQuiet(geo, b, i, g, log);
    hide LogNext;
    assert LineReads(geo, a)[..0] == [];
  }

  lemma BusReadStep(geo: Geometry, op: BusOp, a: Adr, b: BusRegs, i: BusIn, g: BusGnt, log: BusLog)
    requires geo.Valid() && |g.bank| == geo.banks && BusSized(b, geo) && LogSized(geo, log)
    requires Progress(geo, op, a, b, log) && !Uncached(op) && EarlyProgress(geo, op, a, b, log) && b.pc.BusRead?
    ensures Advanced(geo, op, a, BusNext(b, geo, i, g), LogNext(log, b, geo, i, g))
  {
    var n, loads := b.pc.done, LineReads(geo, a);
    LogQuiet(geo, b, i, g, log);
    ReadAt(geo, a, n);
    if n > 0 {
      ReadNext(geo, a, n);
    }
    assert WbAdr(b, geo) == loads[n].adr;
    assert i.ack ==> LogNext(log, b, geo, i, g).transfers == loads[..n] + [loads[n]] == loads[..n + 1];
    hide LogNext, LineReads, NextWord;
  }

  lemma VictimReadStep(geo: Geometry, op: BusOp, a: Adr, b: BusRegs, i: BusIn, g: BusGnt, log: BusLog)
    requires geo.Valid() && |g.bank| == geo.banks && BusSized(b, geo) && LogSized(geo, log)
    requires Progress(geo, op, a, b, log) && !Uncached(op) && BankProgress(geo, op, a, b, log) && b.pc.VictimRead?
    ensures Advanced(geo, op, a, BusNext(b, geo, i, g), LogNext(log, b, geo, i, g))
  {
    LogQuiet(geo, b, i, g, log);
    var l, left := LogNext(log, b, geo, i, g), b.pc.left;
    assert forall k | 0 <= k < geo.banks :: l.read[k] == (log.read[k] || (b.pc.req[k] && g.bank[k]));
    hide LogNext;
    if NoneSet(left) {
      assert l.read == AllBanks(geo);
    } else {
      assert BankProgress(geo, op, a, BusNext(b, geo, i, g), l);
    }
  }

  lemma InvalidTagStep(geo: Geometry, op: BusOp, a: Adr, b: BusRegs, i: BusIn, g: BusGnt, log: BusLog)
    requires geo.Valid() && |g.bank| == geo.banks && BusSized(b, geo) && LogSized(geo, log)
    requires Progress(geo, op, a, b, log) && !Uncached(op) && BankProgress(geo, op, a, b, log) && !b.pc.VictimRead?
      && !b.pc.Fill?
    ensures Advanced(geo, op, a, BusNext(b, geo, i, g), LogNext(log, b, geo, i, g))
  {
    LogQuiet(geo, b, i, g, log);
    var l, n := LogNext(log, b, geo, i, g), BusNext(b, geo, i, g);
    assert BTagWr(b) ==> l.tags == log.tags + [b.tag.(valid := false)];
    assert n.pc.Fill? ==> forall k | 0 <= k < geo.banks :: n.pc.left[k] && !log.filled[k];
    hide LogNext;
    assert BankProgress(geo, op, a, n, l);
  }

  lemma FillStep(geo: Geometry, op: BusOp, a: Adr, b: BusRegs, i: BusIn, g: BusGnt, log: BusLog)
    requires geo.Valid() && |g.bank| == geo.banks && BusSized(b, geo) && LogSized(geo, log)
    requires Progress(geo, op, a, b, log) && !Uncached(op) && BankProgress(geo, op, a, b, log) && b.pc.Fill?
    ensures Advanced(geo, op, a, BusNext(b, geo, i, g), LogNext(log, b, geo, i, g))
  {
    LogQuiet(geo, b, i, g, log);
    var l, left := LogNext(log, b, geo, i, g), Without(b.pc.left, g.bank);
    assert forall k | 0 <= k < geo.banks :: l.filled[k] == (log.filled[k] || (b.pc.left[k] && g.bank[k])) == !left[k];
    hide LogNext;
    if NoneSet(left) {
      assert l.filled == AllBanks(geo);
      assert LateProgress(geo, op, a, BusNext(b, geo, i, g), l);
    } else {
      assert BankProgress(geo, op, a, BusNext(b, geo, i, g), l);
    }
  }

  lemma NewTagStep(geo: Geometry, op: BusOp, a: Adr, b: BusRegs, i: BusIn, g: BusGnt, log: BusLog)
    requires geo.Valid() && |g.bank| == geo.banks && BusSized(b, geo) && LogSized(geo, log)
    requires Progress(geo, op, a, b, log) && !Uncached(op) && LateProgress(geo, op, a, b, log) && !b.pc.VictimPause?
      && !b.pc.VictimWrite?
    ensures Advanced(geo, op, a, BusNext(b, geo, i, g), LogNext(log, b, geo, i, g))
  {
    LogQuiet(geo, b, i, g, log);
    assert BTagWr(b) ==> LogNext(log, b, geo, i, g).tags == log.tags + [NewTag(geo, op, a, b.tag)];
    hide LogNext, NewTag;
    assert b.pc.New2? && b.writeVictim ==>
      LateProgress(geo, op, a, BusNext(b, geo, i, g), LogNext(log, b, geo, i, g));
  }

  // One word of the old line is written to the bus.
  lemma WriteLogged(geo: Geometry, a: Adr, b: BusRegs, i: BusIn, g: BusGnt, log: BusLog)
    requires geo.Valid() && |g.bank| == geo.banks && LogSized(geo, log) && geo.Index(b.adr) == geo.Index(a)
    requires b.pc.VictimWrite? && i.ack && b.pc.done < geo.banks
    ensures LogNext(log, b, geo, i, g).transfers == log.transfers + [LineWrites(geo, b.tag.tadr, a)[b.pc.done]]
  {
    DivModOf(0, b.pc.done, geo.banks);
    assert b.pc.done % geo.banks == b.pc.done;
  }

  lemma WritesSoFar(geo: Geometry, tadr: nat, a: Adr, n: nat)
    requires geo.Valid() && n < geo.banks
    ensures var w := LineWrites(geo, tadr, a);
      w[..0] == [] && w[..n] + [w[n]] == w[..n + 1] && (n + 1 == geo.banks ==> w[..n + 1] == w)
  {}

  lemma VictimWriteStep(geo: Geometry, op: BusOp, a: Adr, b: BusRegs, i: BusIn, g: BusGnt, log: BusLog)
    requires geo.Valid() && |g.bank| == geo.banks && BusSized(b, geo) && LogSized(geo, log)
    requires Progress(geo, op, a, b, log) && !Uncached(op) && LateProgress(geo, op, a, b, log)
      && (b.pc.VictimPause? || b.pc.VictimWrite?)
    ensures Advanced(geo, op, a, BusNext(b, geo, i, g), LogNext(log, b, geo, i, g))
  {
    hide LogNext, NewTag, LineWrites, LineReads, EarlyProgress, BankProgress, LogSized, NextWord;
    LogQuiet(geo, b, i, g, log);
    WritesSoFar(geo, b.tag.tadr, a, if b.pc.VictimPause? then 0 else b.pc.done);
    if b.pc.VictimWrite? && i.ack {
      WriteLogged(geo, a, b, i, g, log);
    }
  }

  lemma OperationStep(geo: Geometry, op: BusOp, a: Adr, b: BusRegs, i: BusIn, g: BusGnt, log: BusLog)
    requires geo.Valid() && |g.bank| == geo.banks && BusSized(b, geo) && LogSized(geo, log)
    requires Progress(geo, op, a, b, log) && (Uncached(op) && i.ack ==> WbStb(b))
    ensures Advanced(geo, op, a, BusNext(b, geo, i, g), LogNext(log, b, geo, i, g))
  {
    hide Advanced, BusNext, LogNext, WbStb;
    if Uncached(op) {
      DirectStep(geo, op, a, b, i, g, log);
    } else if EarlyProgress(geo, op, a, b, log) {
      if b.pc.BusRead? {
        BusReadStep(geo, op, a, b, i, g, log);
      } else {
        EarlyStep(geo, op, a, b, i, g, log);
      }
    } else if BankProgress(geo, op, a, b, log) {
      if b.pc.VictimRead? {
        VictimReadStep(geo, op, a, b, i, g, log);
      } else if b.pc.Fill? {
        FillStep(geo, op, a, b, i, g, log);
      } else {
        InvalidTagStep(geo, op, a, b, i, g, log);
      }
    } else {
      if b.pc.VictimPause? || b.pc.VictimWrite? {
        VictimWriteStep(geo, op, a, b, i, g, log);
      } else {
        NewTagStep(geo, op, a, b, i, g, log);
      }
    }
  }

  // Banks are filled only when everything else has been done that must come first.
  lemma FillsComeLate(geo: Geometry, op: BusOp, a: Adr, b: BusRegs, log: BusLog, bank: nat)
    requires geo.Valid() && Progress(geo, op, a, b, log) && BBankWr(b, bank)
    ensures ReadyToFill(geo, op, a, log)
  {}

  // The banks that are asked for are those of the line, in the way of the sampled tag.
  lemma BanksOfLine(geo: Geometry, op: BusOp, a: Adr, b: BusRegs, log: BusLog)
    requires geo.Valid() && Progress(geo, op, a, b, log) && (b.pc.VictimRead? || b.pc.Fill?)
    ensures geo.Index(b.adr) == geo.Index(a) && log.samples == [b.tag]
  {}

  // A word is offered to the read ports only when it has been read from the bus, and it is the last one that was.
  lemma HitsAreRead(geo: Geometry, op: BusOp, a: Adr, b: BusRegs, log: BusLog)
    requires geo.Valid() && Progress(geo, op, a, b, log) && WordIsRead(b)
    ensures op == DirectRead || op == ReplaceLine
    ensures Transfer(false, b.adr) in log.transfers && SameLine(geo, b.adr, a)
  {
    if op == ReplaceLine {
      var n := if b.pc.BusRead? then b.pc.done else geo.banks;
      assert log.transfers[n - 1] == LineReads(geo, a)[n - 1] && b.adr == LineReads(geo, a)[n - 1].adr;
    }
  }

  // The place in an uncached access, whatever the bus acknowledges.
  predicate UncachedPc(b: BusRegs) {
    && (Uncached(b.op) ==> b.pc.Idle? || b.pc.DirectWait? || b.pc.DirectDone?)
    && (b.pc.DirectWait? ==> Uncached(b.op)) && (b.pc.DirectDone? && b.busy ==> b.op == DirectRead)
  }

  lemma UncachedStep(b: BusRegs, geo: Geometry, i: BusIn, g: BusGnt)
    requires geo.Valid() && |g.bank| == geo.banks && BusSized(b, geo) && BusOk(b) && UncachedPc(b)
    ensures var n := BusNext(b, geo, i, g);
      UncachedPc(n) && (b.busy && n.busy ==> n.op == b.op && (Uncached(b.op) ==> n.adr == b.adr))
  {}

  // ---------- An operation ends ----------

  // All that the bus interface asks for is granted, and the bus acknowledges its transfer.
  ghost predicate Served(b: BusRegs, geo: Geometry, i: BusIn, g: BusGnt)
    requires |g.bank| == geo.banks
  {
    && (BReqLinelock(b) ==> g.linelock) && (BReqTagr(b) ==> g.tagr) && (BReqTagw(b) ==> g.tagw)
    && (forall k | 0 <= k < geo.banks :: BReqBank(b, k) ==> g.bank[k]) && (WbStb(b) ==> i.ack)
  }

  // An upper bound for the served cycles that are left.
  function Remaining(pc: Pc, geo: Geometry): (n: int) {
    match pc
    case Idle => 2 * geo.banks + 16
    case LockWait => 2 * geo.banks + 15
    case TagWait => 2 * geo.banks + 14
    case TagRead => 2 * geo.banks + 13
    case TagHave => 2 * geo.banks + 12
    case BusRead(done) => 2 * geo.banks + 11 - done
    case VictimRead(_, left) => geo.banks + if NoneSet(left) then 9 else 10
    case InvWait => geo.banks + 8
    case Inv1 => geo.banks + 7
    case Inv2 => geo.banks + 6
    case Fill(_) => geo.banks + 5
    case NewWait => geo.banks + 4
    case New1 => geo.banks + 3
    case New2 => geo.banks + 2
    case VictimPause => geo.banks + 1
    case VictimWrite(done) => geo.banks - done
    case DirectWait => 2
    case DirectDone => 1
    case Done => 0
  }

  // The bounds of what is left to do.
  ghost predicate PcOk(b: BusRegs, geo: Geometry) {
    match b.pc
    case Idle => b.op != Nothing
    case BusRead(done) => done < geo.banks
    case VictimWrite(done) => done < geo.banks
    case VictimRead(req, left) => |req| == |left| == geo.banks && forall k | 0 <= k < geo.banks :: left[k] ==> req[k]
    case Fill(left) => |left| == geo.banks
    case LockWait => !b.noLinelock
    case Done => false
    case _ => true
  }

  lemma ProgressPc(geo: Geometry, op: BusOp, a: Adr, b: BusRegs, log: BusLog)
    requires geo.Valid() && Progress(geo, op, a, b, log)
    ensures b.busy && PcOk(b, geo) && BusSized(b, geo)
  {}

  ghost predicate Nearer(b: BusRegs, geo: Geometry, i: BusIn, g: BusGnt, pc: Pc)
    requires |g.bank| == geo.banks
  {
    && Remaining(pc, geo) <= Remaining(b.pc, geo)
    && (Served(b, geo, i, g) ==> Remaining(pc, geo) < Remaining(b.pc, geo))
  }

  lemma BankPcAdvances(b: BusRegs, geo: Geometry, i: BusIn, g: BusGnt)
    requires geo.Valid() && |g.bank| == geo.banks && PcOk(b, geo) && BusSized(b, geo)
      && (b.pc.VictimRead? || b.pc.Fill?)
    ensures Nearer(b, geo, i, g, NextPc(b, geo, i, g))
  {
    var left := Without(b.pc.left, g.bank);
    if Served(b, geo, i, g) {
      forall k | 0 <= k < geo.banks
        ensures !left[k]
      {
        assert b.pc.left[k] ==> BReqBank(b, k);
      }
    }
  }

  lemma StartPcAdvances(b: BusRegs, geo: Geometry, i: BusIn, g: BusGnt)
    requires geo.Valid() && |g.bank| == geo.banks && PcOk(b, geo) && BusSized(b, geo)
    requires b.pc.Idle? || b.pc.LockWait? || b.pc.TagWait? || b.pc.TagRead? || b.pc.DirectWait?
    ensures Nearer(b, geo, i, g, NextPc(b, geo, i, g))
  {
    hide NeedsVictim, Without, NoneSet;
  }

  lemma LinePcAdvances(b: BusRegs, geo: Geometry, i: BusIn, g: BusGnt)
    requires geo.Valid() && |g.bank| == geo.banks && PcOk(b, geo) && BusSized(b, geo)
    requires b.pc.TagHave? || b.pc.BusRead?
    ensures Nearer(b, geo, i, g, NextPc(b, geo, i, g))
  {
    hide NeedsVictim, Without, NoneSet;
  }

  lemma TagPcAdvances(b: BusRegs, geo: Geometry, i: BusIn, g: BusGnt)
    requires geo.Valid() && |g.bank| == geo.banks && PcOk(b, geo) && BusSized(b, geo)
    requires (b.pc.InvWait? || b.pc.Inv1? || b.pc.Inv2? || b.pc.NewWait? || b.pc.New1?)
    ensures Nearer(b, geo, i, g, NextPc(b, geo, i, g))
  {
    hide NeedsVictim, Without, NoneSet;
  }

  lemma LatePcAdvances(b: BusRegs, geo: Geometry, i: BusIn, g: BusGnt)
    requires geo.Valid() && |g.bank| == geo.banks && PcOk(b, geo) && BusSized(b, geo)
    requires (b.pc.New2? || b.pc.VictimPause? || b.pc.VictimWrite?) && NextPc(b, geo, i, g) != Done
    ensures Nearer(b, geo, i, g, NextPc(b, geo, i, g))
  {
    hide NeedsVictim, Without, NoneSet;
  }

  lemma BusyGoesOn(b: BusRegs, geo: Geometry, i: BusIn, g: BusGnt)
    requires geo.Valid() && |g.bank| == geo.banks && b.busy && PcOk(b, geo) && BusSized(b, geo)
    requires BusNext(b, geo, i, g).busy
    ensures BusNext(b, geo, i, g).pc == NextPc(b, geo, i, g) != Done && !b.pc.DirectDone?
  {}

  // Whatever is not granted, an operation never goes back; it is nearer to its end after each cycle that serves it.
  lemma ServedCycleAdvances(b: BusRegs, geo: Geometry, i: BusIn, g: BusGnt)
    requires geo.Valid() && |g.bank| == geo.banks && b.busy && PcOk(b, geo) && BusSized(b, geo)
    ensures BusNext(b, geo, i, g).busy ==> Nearer(b, geo, i, g, BusNext(b, geo, i, g).pc)
    ensures 0 < Remaining(b.pc, geo) <= 2 * geo.banks + 16
  {
    if BusNext(b, geo, i, g).busy {
      BusyGoesOn(b, geo, i, g);
      hide BusNext, NextPc, Nearer, PcOk;
      if b.pc.VictimRead? || b.pc.Fill? {
        BankPcAdvances(b, geo, i, g);
      } else if b.pc.TagHave? || b.pc.BusRead? {
        LinePcAdvances(b, geo, i, g);
      } else if b.pc.New2? || b.pc.VictimPause? || b.pc.VictimWrite? {
        LatePcAdvances(b, geo, i, g);
      } else if b.pc.Idle? || b.pc.LockWait? || b.pc.TagWait? || b.pc.TagRead? || b.pc.DirectWait? {
        StartPcAdvances(b, geo, i, g);
      } else {
        TagPcAdvances(b, geo, i, g);
      }
    }
  }
}
