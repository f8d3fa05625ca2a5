// The load/store unit: a four-slot write buffer that merges stores, forwards their bytes to loads and
// drains into the memory unit (sysc/lsu.cpp).

module LsuSpec {
  import opened Words

  const WBUF_SIZE := 4

  datatype Width = Full | Byte | Half

  // One write buffer slot. 'valid' selects the bytes it holds; an empty slot has none.
  datatype Slot = Slot(adr: Adr, data: Word, valid: ByteSel) {
    predicate Used() {
      !valid.Empty()
    }
  }

  // The registers of the unit. 'carry' is the data variable of the transition thread, which survives from
  // one clock to the next.
  datatype State = State(slots: seq<Slot>, dirty0: bool, carry: Word)

  // The input signals of one clock cycle.
  datatype Inputs = Inputs(
    rd: bool, wr: bool, flush: bool, width: Width, exts: bool, adr: Adr, wdata: Word,
    rpAck: bool, rpData: Word, wpAck: bool)

  // The output and internal signals. They keep their values when the output method returns early.
  datatype Signals = Signals(
    ack: bool, alignErr: bool, rdata: Word, rpRd: bool, rpAdr: Adr,
    wpWr: bool, wpAdr: Adr, wpData: Word, wpSel: ByteSel,
    wbData: Word, wbSel: ByteSel, entry: int, entryNew: int, remove: bool, write: bool)

  const IDLE := Signals(false, false, ZERO_WORD, false, 0, false, 0, ZERO_WORD, NO_BYTES, ZERO_WORD, NO_BYTES, -1, -1,
    false, false)

  // I/O addresses: (adr & 0xf0000000) == 0x90000000.
  predicate AdrIsSpecial(a: Adr) {
    a / 0x1000_0000 == 9
  }

  // Only bit 0 of the address is tested, for full and half words.
  predicate Misaligned(i: Inputs) {
    i.width != Byte && i.adr % 2 != 0
  }

  // The bytes of the word that an access touches.
  function AccessBytes(width: Width, adr: Adr): ByteSel {
    match width
    case Full => ALL_BYTES
    case Byte =>
      ByteSel(adr % 4 == 0, adr % 4 == 1, adr % 4 == 2, adr % 4 == 3)
    case Half =>
      // 3 << (adr & 3), cut to four bits
      ByteSel(adr % 4 == 0, adr % 4 <= 1, 1 <= adr % 4 <= 2, 2 <= adr % 4)
  }

  // The store data, repeated in every position it may be stored to.
  function SpreadData(width: Width, wdata: Word): Word {
    match width
    case Full => wdata
    case Byte => Word(wdata.b3, wdata.b3, wdata.b3, wdata.b3)
    case Half => Word(wdata.b2, wdata.b3, wdata.b2, wdata.b3)
  }

  function SignFill(b: byte, exts: bool): byte {
    if exts && b >= 0x80 then 0xff else 0
  }

  // The load value taken from the memory word 'w': the addressed byte or half word, zero- or sign-extended.
  function LoadValue(w: Word, width: Width, exts: bool, adr: Adr): Word {
    match width
    case Full => w
    case Byte =>
      var b := w.At(adr % 4);
      var f := SignFill(b, exts);
      Word(f, f, f, b)
    case Half =>
      var h := if adr % 4 < 2 then w.b0 else w.b2;
      var l := if adr % 4 < 2 then w.b1 else w.b3;
      var f := SignFill(h, exts);
      Word(f, f, h, l)
  }

  // The slot holds bytes of the word at 'adr'.
  predicate Hits(slot: Slot, adr: Adr) {
    slot.adr == WordAdr(adr) && slot.Used()
  }

  // The first slot that holds bytes of the word at 'adr', or -1.
  function FindHit(slots: seq<Slot>, adr: Adr): (r: int)
    requires |slots| == WBUF_SIZE
  {
    if Hits(slots[0], adr) then 0
    else if Hits(slots[1], adr) then 1
    else if Hits(slots[2], adr) then 2
    else if Hits(slots[3], adr) then 3
    else -1
  }

  // The first empty slot, or -1.
  function FindEmpty(slots: seq<Slot>): (r: int)
    requires |slots| == WBUF_SIZE
  {
    if !slots[0].Used() then 0
    else if !slots[1].Used() then 1
    else if !slots[2].Used() then 2
    else if !slots[3].Used() then 3
    else -1
  }

  predicate Flushed(slots: seq<Slot>) {
    forall k | 0 <= k < |slots| :: !slots[k].Used()
  }

  // The slot a store goes to before the buffer is shifted: a slot with the same word unless the address is
  // special, else an empty slot, else one past the end. Without a store it is -1.
  function EntryFor(slots: seq<Slot>, i: Inputs): (e: int)
    requires |slots| == WBUF_SIZE
    ensures -1 <= e <= WBUF_SIZE && (e == -1 <==> !i.wr)
  {
    if !i.wr then -1
    else
      var hit := FindHit(slots, i.adr);
      var e := if hit < 0 || AdrIsSpecial(i.adr) then FindEmpty(slots) else hit;
      if e < 0 then WBUF_SIZE else e
  }

  // Slot 0 must not change in this cycle.
  predicate Hold0(s: State, i: Inputs)
    requires |s.slots| == WBUF_SIZE
  {
    s.dirty0 && ((i.rd && FindHit(s.slots, i.adr) == 0) || (i.wr && EntryFor(s.slots, i) == 0))
  }

  // The buffer moves down by one slot at the end of this cycle.
  predicate Shifts(s: State, i: Inputs)
    requires |s.slots| == WBUF_SIZE
  {
    !Hold0(s, i) && (!s.dirty0 || i.wpAck) && EntryFor(s.slots, i) != 0
  }

  // The store of this cycle is accepted.
  predicate Accepts(s: State, i: Inputs)
    requires |s.slots| == WBUF_SIZE
  {
    var e := EntryFor(s.slots, i) - if Shifts(s, i) then 1 else 0;
    0 <= e < WBUF_SIZE && !(AdrIsSpecial(i.adr) && e != 0) && !Hold0(s, i)
  }

  // The buffered bytes of the word at 'adr' laid over the word 'w'.
  function Forward(slots: seq<Slot>, adr: Adr, w: Word): Word
    requires |slots| == WBUF_SIZE
  {
    var h := FindHit(slots, adr);
    if h < 0 then w else Overlay(w, slots[h].data, slots[h].valid)
  }

  // A load finds all its bytes in the buffer.
  predicate ServedFromBuffer(s: State, i: Inputs)
    requires |s.slots| == WBUF_SIZE
  {
    var h := FindHit(s.slots, i.adr);
    h >= 0 && AccessBytes(i.width, i.adr).Within(s.slots[h].valid)
  }

  // The signals after the output method has run in state 's', 'last' being their values before. A load that needs
  // memory and the write of slot 0 are requested from the memory unit.
  function Outputs(s: State, i: Inputs, last: Signals): Signals
    requires |s.slots| == WBUF_SIZE
  {
    if Misaligned(i) then last.(ack := false, alignErr := true, rpRd := false, rpAdr := WordAdr(i.adr))
    else
      var entry := EntryFor(s.slots, i);
      var remove := Shifts(s, i);
      Signals(
        (i.rd && (ServedFromBuffer(s, i) || i.rpAck)) || (i.flush && Flushed(s.slots)) || Accepts(s, i),
        false,
        LoadValue(Forward(s.slots, i.adr, i.rpData), i.width, i.exts, i.adr),
        i.rd && !ServedFromBuffer(s, i), WordAdr(i.adr),
        s.dirty0, s.slots[0].adr, s.slots[0].data, s.slots[0].valid,
        SpreadData(i.width, i.wdata), AccessBytes(i.width, i.adr),
        entry, if remove then entry - 1 else entry, remove, Accepts(s, i))
  }

  // The data a store is merged into: that of the slot it goes to, else whatever the thread saw last.
  function MergeBase(s: State, g: Signals): Word {
    if 0 <= g.entry < |s.slots| then s.slots[g.entry].data else s.carry
  }

  function MergeValid(s: State, g: Signals): ByteSel {
    if 0 <= g.entry < |s.slots| then s.slots[g.entry].valid else NO_BYTES
  }

  // The buffer moved down by one slot. The last slot is emptied and keeps its stale address and data.
  function ShiftDown(slots: seq<Slot>): (r: seq<Slot>)
    requires |slots| == WBUF_SIZE
    ensures |r| == WBUF_SIZE
  {
    slots[1..] + [slots[WBUF_SIZE - 1].(valid := NO_BYTES)]
  }

  // The registers after the clock edge.
  function Next(s: State, g: Signals, i: Inputs): (r: State)
    requires |s.slots| == WBUF_SIZE
    requires g.write ==> 0 <= g.entryNew < WBUF_SIZE
    ensures |r.slots| == WBUF_SIZE
  {
    var base := MergeBase(s, g);
    var slots := if g.remove then ShiftDown(s.slots) else s.slots;
    var dirty := if g.remove then s.slots[1].Used() else s.dirty0 && !i.wpAck;
    if g.write then
      var data := Overlay(base, g.wbData, g.wbSel);
      State(slots[g.entryNew := Slot(WordAdr(i.adr), data, MergeValid(s, g).Union(g.wbSel))],
            dirty || g.entryNew == 0, data)
    else
      State(slots, dirty, base)
  }
}
