// The control part of a write port, a read port and the bus interface as functions of their state, their inputs and
// the grants of a cycle (sysc/memu.cpp, MWritePort, MReadPort, MBusIf).

module WritePortSpec {
  import opened Words
  import opened Address

  datatype WpState =
    | Init | Direct
    | RequestLinelockOnly | ReadTag | HaveTagRequestBank | ReadBank
    | WriteTag1AndBank | WriteTag2AndBank | WriteTag1 | WriteTag2 | WriteBank
    | Miss | RequestBusifOnly | Recheck | RecheckReadTag
    | Replace | ReplaceWaitBusif
    | SpecialRequestBusifOnly | Special | SpecialWaitComplete

  datatype BusOp = Nothing | DirectRead | DirectWrite | ReplaceLine | Writeback | Flush | Invalidate

  // Inputs from the CPU, the tag RAM, the banks and the bus interface.
  datatype WpIn = WpIn(
    wr: bool, direct: bool, bsel: ByteSel, rlinkWcond: bool, writeback: bool, invalidate: bool, adr: Adr, data: Word,
    tag: CacheTag, bankData: Word, busy: bool)
  {
    predicate FullWord() {
      bsel == ALL_BYTES
    }
  }

  // A CPU that requests nothing.
  const NO_REQUEST := WpIn(false, false, NO_BYTES, false, false, false, 0, ZERO_WORD, NO_TAG, ZERO_WORD, false)

  datatype WpGnt = WpGnt(linelock: bool, tagr: bool, tagw: bool, bank: bool, busif: bool)

  datatype WpRegs = WpRegs(state: WpState, tag: CacheTag, data: Word, linkAdr: Adr, linkValid: bool)

  // A store conditional without a valid link fails right away.
  predicate ScFails(r: WpRegs, i: WpIn) {
    i.rlinkWcond && !r.linkValid
  }

  predicate CachedWrite(r: WpRegs, i: WpIn) {
    i.wr && !i.direct && !ScFails(r, i)
  }

  predicate SpecialOp(i: WpIn) {
    !i.wr && (i.writeback || i.invalidate)
  }

  predicate ReqTagr(r: WpRegs, i: WpIn) {
    match r.state
    case Init => CachedWrite(r, i)
    case Recheck => true
    case ReplaceWaitBusif => !i.busy
    case _ => false
  }

  predicate ReqTagw(r: WpRegs) {
    (r.state.WriteTag1AndBank? || r.state.WriteTag2AndBank? || r.state.WriteTag1? || r.state.WriteTag2?)
  }

  predicate ReqBank(r: WpRegs, i: WpIn) {
    match r.state
    case ReadTag => !i.FullWord()
    case HaveTagRequestBank => true
    case ReadBank => true
    case WriteTag1AndBank => true
    case WriteTag2AndBank => true
    case WriteBank => true
    case _ => false
  }

  predicate ReqBusif(r: WpRegs, i: WpIn) {
    match r.state
    case Init => (i.wr && i.direct) || SpecialOp(i)
    case Direct => true
    case Miss => true
    case RequestBusifOnly => true
    case Recheck => true
    case RecheckReadTag => true
    case Replace => true
    case ReplaceWaitBusif => true
    case SpecialRequestBusifOnly => true
    case Special => true
    case SpecialWaitComplete => true
    case _ => false
  }

  // The line lock request is dropped in the cycle of the last bank or tag access.
  predicate ReqLinelock(r: WpRegs, i: WpIn, gntBank: bool) {
    match r.state
    case Init => CachedWrite(r, i) || SpecialOp(i)
    case RequestLinelockOnly => true
    case ReadTag => true
    case HaveTagRequestBank => true
    case ReadBank => true
    case WriteTag1AndBank => true
    case WriteTag2AndBank => !gntBank
    case WriteTag1 => true
    case WriteBank => !gntBank
    case Miss => true
    case Recheck => true
    case RecheckReadTag => true
    case Replace => true
    case ReplaceWaitBusif => true
    case Special => true
    case SpecialWaitComplete => true
    case _ => false
  }

  predicate TagWr(r: WpRegs, g: WpGnt) {
    match r.state
    case WriteTag1AndBank => g.tagw
    case WriteTag1 => g.tagw
    case WriteTag2 => true
    case _ => false
  }

  predicate BankWr(r: WpRegs, g: WpGnt) {
    match r.state
    case WriteTag1AndBank => g.bank
    case WriteTag2AndBank => g.bank
    case WriteBank => true
    case _ => false
  }

  // The tag that the port drives: its way selects the words in the banks.
  function TagOut(r: WpRegs, i: WpIn): CacheTag {
    if r.state.ReadTag? then i.tag
    else if ReqTagw(r) then r.tag.(dirty := true)
    else r.tag
  }

  // The word that the port writes.
  function BankDataOut(r: WpRegs, i: WpIn): Word {
    Overlay(r.data, i.data, i.bsel)
  }

  predicate Ack(r: WpRegs, i: WpIn, g: WpGnt) {
    match r.state
    case Init => i.wr && !i.direct && ScFails(r, i)
    case Direct => i.busy
    case WriteTag2AndBank => g.bank
    case WriteTag2 => true
    case WriteBank => g.bank
    case SpecialWaitComplete => !i.busy
    case _ => false
  }

  function BusifOp(r: WpRegs, i: WpIn): BusOp {
    match r.state
    case Init => if i.wr && i.direct then DirectWrite else Nothing
    case Direct => DirectWrite
    case Replace => ReplaceLine
    case Special =>
      if i.writeback && i.invalidate then Flush else if i.writeback then Writeback else Invalidate
    case _ => Nothing
  }

  // The state after a tag has been captured and found to hold the line.
  function HitState(i: WpIn, partWord: WpState): WpState {
    if i.FullWord() then (if i.tag.dirty then WriteBank else WriteTag1AndBank) else partWord
  }

  function NextState(r: WpRegs, i: WpIn, g: WpGnt): WpState {
    match r.state
    case Init =>
      if i.wr then
        if i.direct then (if g.busif && !i.busy then Direct else Init)
        else if ScFails(r, i) then Init
        else if g.tagr then (if g.linelock then ReadTag else RequestLinelockOnly)
        else Init
      else if i.writeback || i.invalidate then
        if g.busif && !i.busy then Special
        else if g.linelock && !g.busif then SpecialRequestBusifOnly
        else Init
      else Init
    case Direct => if i.busy then Init else Direct
    case RequestLinelockOnly => if g.linelock then Init else RequestLinelockOnly
    case ReadTag =>
      if i.tag.valid then HitState(i, if g.bank then ReadBank else HaveTagRequestBank) else Miss
    case HaveTagRequestBank => if g.bank then ReadBank else HaveTagRequestBank
    case ReadBank => if r.tag.dirty then WriteBank else WriteTag1AndBank
    case WriteTag1AndBank =>
      if g.bank && g.tagw then WriteTag2
      else if g.tagw then WriteTag2AndBank
      else if g.bank then WriteTag1
      else WriteTag1AndBank
    case WriteTag2AndBank => if g.bank then Init else WriteBank
    case WriteTag1 => if g.tagw then WriteTag2 else WriteTag1
    case WriteTag2 => Init
    case WriteBank => if g.bank then Init else WriteBank
    case Miss =>
      if g.busif && !i.busy && g.linelock then Recheck
      else if !g.busif && g.linelock then RequestBusifOnly
      else Miss
    case RequestBusifOnly => if g.busif then Miss else RequestBusifOnly
    case Recheck => if g.tagr then RecheckReadTag else Recheck
    case RecheckReadTag => if i.tag.valid then HitState(i, HaveTagRequestBank) else Replace
    case Replace => if i.busy then ReplaceWaitBusif else Replace
    case ReplaceWaitBusif =>
      if i.busy then ReplaceWaitBusif else if g.tagr then ReadTag else Init
    case SpecialRequestBusifOnly => if g.busif then Init else SpecialRequestBusifOnly
    case Special => if i.busy then SpecialWaitComplete else Special
    case SpecialWaitComplete => if i.busy then SpecialWaitComplete else Init
  }

  // A load link: neither write nor cache control, in the initial state.
  predicate Links(r: WpRegs, i: WpIn) {
    r.state == Init && !i.wr && !i.writeback && !i.invalidate && i.rlinkWcond
  }

  // The registers after the cycle. 'snoop' is the address some other port has line-locked, if any.
  function NextRegs(r: WpRegs, i: WpIn, g: WpGnt, snoopStb: bool, snoopAdr: Adr): WpRegs {
    WpRegs(
      NextState(r, i, g),
      if r.state.ReadTag? || r.state.RecheckReadTag? then i.tag else r.tag,
      if r.state.ReadBank? then i.bankData else r.data,
      if Links(r, i) then i.adr else r.linkAdr,
      Links(r, i) || (r.linkValid && !(snoopStb && snoopAdr == r.linkAdr)))
  }

  // The write-conditional result that the port reports for the address it is given.
  predicate WcondOk(r: WpRegs, i: WpIn) {
    r.linkValid && r.linkAdr == i.adr
  }

  // States in which the port works on a line: from the capture of its tag to the last tag or bank write, and while
  // it rechecks and replaces the line. All of them need the line lock.
  predicate Critical(s: WpState) {
    || s.ReadTag? || s.HaveTagRequestBank? || s.ReadBank?
    || s.WriteTag1AndBank? || s.WriteTag2AndBank? || s.WriteTag1? || s.WriteTag2? || s.WriteBank?
    || s.Recheck? || s.RecheckReadTag? || s.Replace? || s.ReplaceWaitBusif?
  }

  predicate IsSpecial(s: WpState) {
    s.Special? || s.SpecialWaitComplete?
  }

  // States in which the port has been given the bus interface and still asks for it.
  predicate OwnsBusif(s: WpState) {
    || s.Direct? || s.Recheck? || s.RecheckReadTag? || s.Replace? || s.ReplaceWaitBusif?
    || s.Special? || s.SpecialWaitComplete?
  }
}

module ReadPortSpec {
  import opened Words
  import opened Address
  import opened WritePortSpec

  datatype RpState =
    | RInit | RDirectWaitBusif | RReadTag | RReadBank
    | RMissWaitBusif | RMissRequestTag | RMissReadTag | RMissReplace

  datatype RpIn = RpIn(
    rd: bool, direct: bool, adr: Adr, busifHit: bool, tag: CacheTag, bankData: Word, busifData: Word, busy: bool)

  datatype RpGnt = RpGnt(tagr: bool, bank: bool, busif: bool)

  // A new request is accepted in the initial state and while the last word is read from the bank.
  predicate Accepts(s: RpState) {
    (s.RInit? || s.RReadBank?)
  }

  predicate RReqTagr(s: RpState, i: RpIn) {
    || (s == RInit && i.rd && !i.direct && !i.busifHit)
    || s.RReadTag? || s.RReadBank? || s.RMissRequestTag? || s.RMissReadTag?
  }

  predicate RReqBank(s: RpState, i: RpIn) {
    (s.RReadTag? || s.RMissReadTag?) && i.tag.valid
  }

  predicate RReqBusif(s: RpState, i: RpIn) {
    (Accepts(s) && i.rd && i.direct) ||
    (s.RDirectWaitBusif? || s.RMissWaitBusif? || s.RMissRequestTag? || s.RMissReadTag? || s.RMissReplace?)
  }

  function RBusifOp(s: RpState, i: RpIn): BusOp {
    if (Accepts(s) && i.rd && i.direct) || s == RDirectWaitBusif then DirectRead
    else if s == RMissReplace then ReplaceLine
    else Nothing
  }

  predicate RAck(s: RpState, i: RpIn, g: RpGnt) {
    match s
    case RInit => i.rd && !i.direct && i.busifHit
    case RReadBank => i.rd && !i.direct && i.busifHit
    case RDirectWaitBusif => i.busifHit
    case RMissWaitBusif => i.busifHit
    case RMissReplace => i.busifHit
    case RReadTag => i.tag.valid && g.bank
    case RMissReadTag => i.tag.valid && g.bank
    case RMissRequestTag => false
  }

  function RNextState(s: RpState, i: RpIn, g: RpGnt): RpState {
    match s
    case RInit => AcceptState(i, g)
    case RReadBank => AcceptState(i, g)
    case RDirectWaitBusif => if i.busifHit then RInit else RDirectWaitBusif
    case RReadTag => if i.tag.valid then (if g.bank then RReadBank else RReadTag) else RMissWaitBusif
    case RMissWaitBusif =>
      if i.busifHit then RInit else if g.busif && !i.busy then RMissRequestTag else RMissWaitBusif
    case RMissRequestTag => if g.tagr then RMissReadTag else RMissRequestTag
    case RMissReadTag => if i.tag.valid then (if g.bank then RReadBank else RMissReadTag) else RMissReplace
    case RMissReplace => if i.busifHit then RInit else RMissReplace
  }

  function AcceptState(i: RpIn, g: RpGnt): RpState {
    if i.rd then
      if i.direct then (if g.busif then RDirectWaitBusif else RInit)
      else if i.busifHit then RInit
      else if g.tagr then RReadTag
      else RInit
    else RInit
  }

  // The data that the port delivers (port_data), one cycle after the acknowledge.
  function RDataOut(s: RpState, i: RpIn): Word {
    if s.RReadBank? then i.bankData else i.busifData
  }

  // The port has sampled a tag and may still read the bank it points to.
  predicate HoldsTag(s: RpState) {
    (s.RReadTag? || s.RMissReadTag?)
  }

  predicate ROwnsBusif(s: RpState) {
    (s.RDirectWaitBusif? || s.RMissRequestTag? || s.RMissReadTag? || s.RMissReplace?)
  }
}

module BusIfSpec {
  import opened Words
  import opened Address
  import opened WritePortSpec
  import opened ArbiterSpec

  // The wait() statements of the thread. The registers and request lines set before a wait hold in its cycle.
  datatype Pc =
    | Idle                          // no operation, or an operation just accepted
    | DirectWait | DirectDone       // uncached access
    | LockWait | TagWait | TagRead | TagHave
    | BusRead(done: nat)            // 'done' words of the new line have been read
    | VictimRead(req: Lines, left: Lines)   // banks requested, banks still to be read
    | InvWait | Inv1 | Inv2         // the invalid tag is written
    | Fill(left: Lines)             // banks still to be written
    | NewWait | New1 | New2         // the new tag is written
    | VictimPause | VictimWrite(done: nat)
    | Done                          // idle again, the line lock still held

  datatype BusRegs = BusRegs(pc: Pc, op: BusOp, noLinelock: bool, adr: Adr, busy: bool, tag: CacheTag,
    writeVictim: bool)

  // The operation offered by the port that owns the bus interface, the bus acknowledge and the tag RAM output.
  datatype BusIn = BusIn(op: BusOp, noLinelock: bool, adr: Adr, ack: bool, tag: CacheTag)

  datatype BusGnt = BusGnt(linelock: bool, tagr: bool, tagw: bool, bank: Lines)

  const RESET := BusRegs(Idle, Nothing, false, 0, false, NO_TAG, false)

  // The word at the address register has been read from the bus in this operation and is offered to the read ports.
  predicate WordIsRead(b: BusRegs) {
    b.busy && match b.pc
      case DirectDone => true
      case Idle | DirectWait | LockWait | TagWait | TagRead | TagHave | Done => false
      case BusRead(done) => done > 0
      case _ => b.op == ReplaceLine
  }

  // A read port finds the word at its address in the bus interface (HitMethod).
  predicate BusHit(b: BusRegs, adr: Adr) {
    WordIsRead(b) && adr == b.adr
  }

  // The line lock is requested from its first use to the end of the operation, unless a write port has told the bus
  // interface not to take it.
  predicate BReqLinelock(b: BusRegs) {
    !b.noLinelock && !(b.pc.Idle? || b.pc.DirectWait? || b.pc.DirectDone?)
  }

  predicate BReqTagr(b: BusRegs) {
    (b.pc.TagWait? || b.pc.TagRead?)
  }

  predicate BReqTagw(b: BusRegs) {
    (b.pc.InvWait? || b.pc.Inv1? || b.pc.Inv2? || b.pc.NewWait? || b.pc.New1? || b.pc.New2?)
  }

  predicate BTagWr(b: BusRegs) {
    (b.pc.Inv1? || b.pc.Inv2? || b.pc.New1? || b.pc.New2?)
  }

  // The tag that is written: first the old one made invalid, when a line is replaced, then the new one, not dirty.
  function BTagOut(b: BusRegs, geo: Geometry): CacheTag
    requires geo.Valid()
  {
    if b.pc.Inv1? || b.pc.Inv2? then b.tag.(valid := false)
    else if b.pc.New1? || b.pc.New2? then
      CacheTag(b.op == ReplaceLine || (b.tag.valid && b.op == Writeback), false, geo.Tag(b.adr), b.tag.way)
    else b.tag
  }

  predicate BReqBank(b: BusRegs, bank: nat) {
    match b.pc
    case VictimRead(req, _) => bank < |req| && req[bank]
    case Fill(left) => bank < |left| && left[bank]
    case _ => false
  }

  function Without(left: Lines, gnt: Lines): (r: Lines)
    requires |left| == |gnt|
    ensures |r| == |left|
  {
    seq(|left|, k requires 0 <= k < |left| => left[k] && !gnt[k])
  }

  function AllBanks(g: Geometry): (r: Lines)
    ensures |r| == g.banks
  {
    seq(g.banks, _ => true)
  }

  // The thread looks for a new operation: it latches all inputs when one is offered.
  predicate Accepting(b: BusRegs) {
    (b.pc.Idle? && b.op == Nothing) || (b.pc.DirectDone? && !b.busy) || b.pc.Done?
  }

  predicate Starting(b: BusRegs) {
    b.pc.Idle? && b.op != Nothing
  }

  predicate DirectOp(b: BusRegs) {
    b.op == DirectRead || b.op == DirectWrite
  }

  // The bus acknowledges an uncached access.
  predicate DirectAcked(b: BusRegs, i: BusIn) {
    i.ack && (b.pc.DirectWait? || (Starting(b) && DirectOp(b)))
  }

  // The new line is complete, or none had to be read.
  predicate LineRead(b: BusRegs, geo: Geometry, i: BusIn) {
    (b.pc.TagHave? && b.op != ReplaceLine) || (b.pc.BusRead? && i.ack && b.pc.done + 1 >= geo.banks)
  }

  // The line in the cache has to be written back.
  predicate NeedsVictim(b: BusRegs) {
    b.tag.dirty && (b.op == Writeback || b.op == Flush || b.op == ReplaceLine)
  }

  // The last cycle of a cache operation.
  predicate Finishing(b: BusRegs, geo: Geometry, i: BusIn) {
    (b.pc.New2? && !b.writeVictim) || (b.pc.VictimWrite? && i.ack && b.pc.done + 1 >= geo.banks)
  }

  function LockPc(g: BusGnt): Pc {
    if g.linelock then TagPc(g) else LockWait
  }

  function TagPc(g: BusGnt): Pc {
    if g.tagr then TagRead else TagWait
  }

  function NewTagPc(g: BusGnt): Pc {
    if g.tagw then New1 else NewWait
  }

  // After the victim has been read, or if there is none.
  function VictimReadPc(b: BusRegs, g: BusGnt): Pc {
    if b.op == ReplaceLine then (if g.tagw then Inv1 else InvWait) else NewTagPc(g)
  }

  function LineReadPc(b: BusRegs, geo: Geometry, g: BusGnt): Pc {
    if NeedsVictim(b) then VictimRead(AllBanks(geo), AllBanks(geo)) else VictimReadPc(b, g)
  }

  function StartPc(b: BusRegs, i: BusIn, g: BusGnt): Pc {
    if DirectOp(b) then (if i.ack then DirectDone else DirectWait)
    else if !b.noLinelock then LockPc(g)
    else TagPc(g)
  }

  // From one wait() to the next.
  function NextPc(b: BusRegs, geo: Geometry, i: BusIn, g: BusGnt): Pc
    requires |g.bank| == geo.banks
    requires b.pc.VictimRead? ==> |b.pc.left| == geo.banks
    requires b.pc.Fill? ==> |b.pc.left| == geo.banks
  {
    match b.pc
    case Idle => if b.op == Nothing then Idle else StartPc(b, i, g)
    case DirectWait => if i.ack then DirectDone else DirectWait
    case DirectDone => if b.busy then DirectDone else Idle
    case LockWait => LockPc(g)
    case TagWait => TagPc(g)
    case TagRead => TagHave
    case TagHave => if b.op == ReplaceLine then BusRead(0) else LineReadPc(b, geo, g)
    case BusRead(done) =>
      if !i.ack then b.pc else if done + 1 < geo.banks then BusRead(done + 1) else LineReadPc(b, geo, g)
    case VictimRead(_, left) =>
      // a bank stays requested for one cycle after its grant
      if !NoneSet(left) then VictimRead(left, Without(left, g.bank)) else VictimReadPc(b, g)
    case InvWait => if g.tagw then Inv1 else InvWait
    case Inv1 => Inv2
    case Inv2 => Fill(AllBanks(geo))
    case Fill(left) =>
      if !NoneSet(Without(left, g.bank)) then Fill(Without(left, g.bank)) else NewTagPc(g)
    case NewWait => NewTagPc(g)
    case New1 => New2
    case New2 => if b.writeVictim then VictimPause else Done
    case VictimPause => VictimWrite(0)
    case VictimWrite(done) =>
      if !i.ack then b.pc else if done + 1 < geo.banks then VictimWrite(done + 1) else Done
    case Done => Idle
  }

  // The next word of the line in wrap-around order.
  function NextWord(geo: Geometry, a: Adr): Adr
    requires geo.Valid()
  {
    SplitComposes(geo, a);
    geo.Compose(geo.Tag(a), geo.Index(a), if geo.Bank(a) + 1 == geo.banks then 0 else geo.Bank(a) + 1)
  }

  // The address register follows the words of a line as they are read.
  function NextAdr(b: BusRegs, geo: Geometry, i: BusIn): Adr
    requires geo.Valid()
  {
    if Accepting(b) && i.op != Nothing then i.adr
    else if b.pc.BusRead? && i.ack then (if b.pc.done == 0 then WordAdr(b.adr) else NextWord(geo, b.adr))
    else b.adr
  }

  // The operation ends here; a direct read keeps the bus interface busy for one more cycle.
  predicate Releasing(b: BusRegs, geo: Geometry, i: BusIn) {
    Finishing(b, geo, i) || (DirectAcked(b, i) && b.op == DirectWrite) || (b.pc.DirectDone? && b.busy)
  }

  // ---------- What the thread drives ----------

  // A bus transfer is requested: strobe, direction and address (wb_stb_o, wb_we_o, wb_adr_o).
  predicate WbStb(b: BusRegs) {
    b.pc.DirectWait? || b.pc.BusRead? || b.pc.VictimWrite?
  }

  predicate WbWe(b: BusRegs) {
    (b.pc.DirectWait? && b.op == DirectWrite) || b.pc.VictimWrite?
  }

  // The words of the new line in wrap-around order from the requested one, those of the old line from bank 0 on. Tag
  // bits beyond the address width are cut off.
  function WbAdr(b: BusRegs, geo: Geometry): Adr
    requires geo.Valid()
  {
    match b.pc
    case BusRead(done) => if done == 0 then WordAdr(b.adr) else NextWord(geo, b.adr)
    case VictimWrite(done) => geo.Compose(b.tag.tadr % geo.tags, geo.Index(b.adr), done % geo.banks)
    case _ => b.adr
  }

  // A bank is read into the data register, or written from it (bank_rd, bank_wr).
  predicate BBankRd(b: BusRegs, bank: nat) {
    b.pc.VictimRead? && BReqBank(b, bank)
  }

  predicate BBankWr(b: BusRegs, bank: nat) {
    b.pc.Fill? && BReqBank(b, bank)
  }

  function BusNext(b: BusRegs, geo: Geometry, i: BusIn, g: BusGnt): BusRegs
    requires geo.Valid() && |g.bank| == geo.banks
    requires b.pc.VictimRead? ==> |b.pc.left| == geo.banks
    requires b.pc.Fill? ==> |b.pc.left| == geo.banks
  {
    var latch := Accepting(b) && i.op != Nothing;
    BusRegs(
      NextPc(b, geo, i, g),
      if latch then i.op else if Releasing(b, geo, i) then Nothing else b.op,
      if latch then i.noLinelock else b.noLinelock,
      NextAdr(b, geo, i),
      latch || (b.busy && !Releasing(b, geo, i)),
      if b.pc.TagRead? then i.tag else b.tag,
      if Starting(b) && !DirectOp(b) then false else b.writeVictim || (LineRead(b, geo, i) && NeedsVictim(b)))
  }
}
