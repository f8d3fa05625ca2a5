// The store buffer refines a flat memory: what a program sees through it is its own stores in program order.

module LsuProofs {
  import opened Words
  import opened LsuSpec

  // ---------- The reachable states ----------

  // Used slots form a prefix, hold different words and only slot 0 may hold an I/O word.
  ghost predicate Shape(slots: seq<Slot>) {
    && |slots| == WBUF_SIZE
    && (forall i, j | 0 <= i < j < |slots| && slots[j].Used() :: slots[i].Used())
    && (forall i, j | 0 <= i < j < |slots| && slots[j].Used() :: slots[i].adr != slots[j].adr)
    && (forall i | 0 <= i < |slots| && slots[i].Used() :: slots[i].adr % 4 == 0)
    && (forall i | 0 < i < |slots| && slots[i].Used() :: !AdrIsSpecial(slots[i].adr))
  }

  ghost predicate Valid(s: State) {
    Shape(s.slots) && (s.dirty0 ==> s.slots[0].Used())
  }

  // Slot 0 is either still to be written or already in memory.
  ghost predicate Synced(s: State, m: Memory)
    requires |s.slots| == WBUF_SIZE
  {
    !s.dirty0 && s.slots[0].Used() ==>
      Overlay(m(s.slots[0].adr), s.slots[0].data, s.slots[0].valid) == m(s.slots[0].adr)
  }

  // What the memory unit owes the buffer: it acknowledges only what the signals of the cycle request.
  predicate MemoryAnswers(s: State, i: Inputs)
    requires |s.slots| == WBUF_SIZE
  {
    var g := Outputs(s, i, IDLE);
    (i.wpAck ==> g.wpWr) && (i.rpAck ==> g.rpRd)
  }

  // One aligned request at a time. A flush comes without one.
  predicate Request(i: Inputs) {
    !Misaligned(i) && !(i.rd && i.wr) && !(i.flush && (i.rd || i.wr))
  }

  // A store and a load of a full word.
  function FullStore(a: Adr, x: Word, ack: bool): (i: Inputs)
    requires a % 4 == 0
    ensures Request(i)
  {
    assert a == 2 * (2 * (a / 4));
    Inputs(false, true, false, Full, false, a, x, false, ZERO_WORD, ack)
  }

  function FullLoad(a: Adr, rpData: Word, wpAck: bool): (i: Inputs)
    requires a % 4 == 0
    ensures Request(i)
  {
    assert a == 2 * (2 * (a / 4));
    Inputs(true, false, false, Full, false, a, ZERO_WORD, false, rpData, wpAck)
  }

  // Memory after the cycle: an acknowledged write has stored what the signals request.
  function MemoryAfter(s: State, m: Memory, i: Inputs): Memory
    requires |s.slots| == WBUF_SIZE
  {
    var g := Outputs(s, i, IDLE);
    if i.wpAck then StoreWord(m, g.wpAdr, g.wpData, g.wpSel) else m
  }

  // The whole cycle: output method, then clock edge. An aligned request does not depend on earlier signals.
  function Step(s: State, i: Inputs): (r: State)
    requires |s.slots| == WBUF_SIZE && !Misaligned(i)
    ensures |r.slots| == WBUF_SIZE
  {
    Next(s, Outputs(s, i, IDLE), i)
  }

  // Memory as the program sees it: buffered bytes over stored ones.
  function View(s: State, m: Memory, a: Adr): Word
    requires |s.slots| == WBUF_SIZE
  {
    Forward(s.slots, a, m(WordAdr(a)))
  }

  // ---------- The slots ----------

  lemma HitIs(slots: seq<Slot>, a: Adr, k: nat)
    requires Shape(slots)
    requires k < |slots| && slots[k].adr == WordAdr(a) && slots[k].Used()
    ensures FindHit(slots, a) == k
  {}

  lemma ShapeShift(slots: seq<Slot>)
    requires Shape(slots)
    ensures Shape(ShiftDown(slots))
    ensures forall k | 0 <= k < |slots| - 1 :: ShiftDown(slots)[k] == slots[k + 1]
  {}

  lemma ForwardShift(slots: seq<Slot>, a: Adr, w: Word)
    requires Shape(slots)
    ensures WordAdr(a) == slots[0].adr && slots[0].Used() ==> Forward(ShiftDown(slots), a, w) == w
    ensures !(WordAdr(a) == slots[0].adr && slots[0].Used()) ==> Forward(ShiftDown(slots), a, w) == Forward(slots, a, w)
  {
    ShapeShift(slots);
    var h := FindHit(slots, a);
    if h > 0 {
      HitIs(ShiftDown(slots), a, h - 1);
    }
  }

  // 'slot' may be put in place 'e': it replaces the slot of its word, or extends the used prefix by a new word.
  ghost predicate Fits(slots: seq<Slot>, e: nat, slot: Slot) {
    && e < |slots| && slot.Used() && slot.adr % 4 == 0
    && (AdrIsSpecial(slot.adr) ==> e == 0)
    && (forall k | 0 <= k < e :: slots[k].Used())
    && (if slots[e].Used() then slots[e].adr == slot.adr
        else forall k | 0 <= k < |slots| :: slots[k].Used() ==> slots[k].adr != slot.adr)
  }

  lemma PutKeepsShape(slots: seq<Slot>, e: nat, slot: Slot)
    requires Shape(slots) && Fits(slots, e, slot)
    ensures Shape(slots[e := slot])
  {}

  lemma PutForward(slots: seq<Slot>, e: nat, slot: Slot, a: Adr, w: Word)
    requires Shape(slots) && Fits(slots, e, slot)
    ensures WordAdr(a) == slot.adr ==> Forward(slots[e := slot], a, w) == Overlay(w, slot.data, slot.valid)
    ensures WordAdr(a) != slot.adr ==> Forward(slots[e := slot], a, w) == Forward(slots, a, w)
  {
    var u := slots[e := slot];
    PutKeepsShape(slots, e, slot);
    if WordAdr(a) == slot.adr {
      HitIs(u, a, e);
    } else {
      var h, r := FindHit(slots, a), FindHit(u, a);
      assert r >= 0 ==> r != e && u[r] == slots[r];
      assert h >= 0 ==> h != e && u[h] == slots[h];
    }
  }

  // The state after the shift and the acknowledgement, before a store is merged in.
  function Retired(s: State, i: Inputs): (r: State)
    requires |s.slots| == WBUF_SIZE
    ensures |r.slots| == WBUF_SIZE
  {
    if Shifts(s, i) then State(ShiftDown(s.slots), s.slots[1].Used(), s.carry)
    else State(s.slots, s.dirty0 && !i.wpAck, s.carry)
  }

  lemma RetiredValid(s: State, m: Memory, i: Inputs)
    requires Valid(s) && Synced(s, m) && MemoryAnswers(s, i)
    ensures Valid(Retired(s, i)) && Synced(Retired(s, i), MemoryAfter(s, m, i))
  {
    ShapeShift(s.slots);
    var s0, t0 := s.slots[0], Retired(s, i).slots[0];
    if i.wpAck && !Shifts(s, i) {
      assert MemoryAfter(s, m, i)(t0.adr) == Overlay(m(s0.adr), s0.data, s0.valid);
    }
  }

  // Acknowledging and shifting do not change what the program sees.
  lemma RetiringKeepsView(s: State, m: Memory, i: Inputs, a: Adr)
    requires Valid(s) && Synced(s, m) && MemoryAnswers(s, i)
    ensures View(Retired(s, i), MemoryAfter(s, m, i), a) == View(s, m, a)
  {
    ForwardShift(s.slots, a, m(WordAdr(a)));
    if s.slots[0].Used() && WordAdr(a) == s.slots[0].adr {
      HitIs(s.slots, a, 0);
    }
  }

  // Where the store of this cycle goes, in terms of the retired buffer: the slot that holds its word, else the
  // first empty one.
  lemma TargetSlot(s: State, i: Inputs)
    requires Valid(s) && Request(i) && Accepts(s, i)
    ensures i.wr
    ensures var g := Outputs(s, i, IDLE);
      var t := Retired(s, i);
      && 0 <= g.entryNew < WBUF_SIZE && g.write
      && (if t.slots[g.entryNew].Used()
          then t.slots[g.entryNew].adr == WordAdr(i.adr) && !AdrIsSpecial(i.adr)
               && MergeValid(s, g) == t.slots[g.entryNew].valid && MergeBase(s, g) == t.slots[g.entryNew].data
          else MergeValid(s, g) == NO_BYTES && FindHit(t.slots, i.adr) == -1)
      && (forall k | 0 <= k < g.entryNew :: t.slots[k].Used())
      && (AdrIsSpecial(i.adr) ==> g.entryNew == 0 && Flushed(t.slots))
  {
    var e := EntryFor(s.slots, i);
    ShapeShift(s.slots);
    if e < WBUF_SIZE && !s.slots[e].Used() {
      assert FindEmpty(s.slots) == e;
    }
  }

  // ---------- One clock cycle ----------

  // The slot written by an accepted store.
  function NewSlot(s: State, i: Inputs): Slot
    requires |s.slots| == WBUF_SIZE
  {
    var g := Outputs(s, i, IDLE);
    Slot(WordAdr(i.adr), Overlay(MergeBase(s, g), g.wbData, g.wbSel), MergeValid(s, g).Union(g.wbSel))
  }

  // A cycle retires, then puts the accepted store in its place.
  lemma StepIsPut(s: State, i: Inputs)
    requires Valid(s) && Request(i)
    ensures !Accepts(s, i) ==> Step(s, i).slots == Retired(s, i).slots && Step(s, i).dirty0 == Retired(s, i).dirty0
    ensures Accepts(s, i) ==>
      var e := Outputs(s, i, IDLE).entryNew;
      && Fits(Retired(s, i).slots, e, NewSlot(s, i))
      && Step(s, i).slots == Retired(s, i).slots[e := NewSlot(s, i)]
      && Step(s, i).dirty0 == (Retired(s, i).dirty0 || e == 0)
  {
    if Accepts(s, i) {
      TargetSlot(s, i);
      var t := Retired(s, i).slots;
      assert forall k | 0 <= k < |t| && t[k].Used() && t[k].adr == WordAdr(i.adr) :: FindHit(t, i.adr) != -1;
    }
  }

  lemma StepKeepsValid(s: State, m: Memory, i: Inputs)
    requires Valid(s) && Synced(s, m) && MemoryAnswers(s, i) && Request(i)
    ensures Valid(Step(s, i)) && Synced(Step(s, i), MemoryAfter(s, m, i))
  {
    RetiredValid(s, m, i);
    StepIsPut(s, i);
    if Accepts(s, i) {
      PutKeepsShape(Retired(s, i).slots, Outputs(s, i, IDLE).entryNew, NewSlot(s, i));
    }
  }

  // A merged store changes the view in exactly its bytes.
  lemma MergingStores(s: State, m: Memory, m': Memory, i: Inputs, a: Adr)
    requires Valid(s) && Synced(s, m) && MemoryAnswers(s, i) && Request(i) && Accepts(s, i)
    ensures View(Step(s, i), m', a) ==
            if WordAdr(a) == WordAdr(i.adr)
            then Overlay(View(Retired(s, i), m', a), SpreadData(i.width, i.wdata), AccessBytes(i.width, i.adr))
            else View(Retired(s, i), m', a)
  {
    StepIsPut(s, i);
    RetiredValid(s, m, i);
    TargetSlot(s, i);
    var e := Outputs(s, i, IDLE).entryNew;
    var t := Retired(s, i).slots;
    PutForward(t, e, NewSlot(s, i), a, m'(WordAdr(a)));
    if WordAdr(a) == WordAdr(i.adr) && t[e].Used() {
      HitIs(t, a, e);
    }
  }

  // The refinement step: the program's view changes only by the store accepted in this cycle.
  lemma StepRefines(s: State, m: Memory, i: Inputs, a: Adr)
    requires Valid(s) && Synced(s, m) && MemoryAnswers(s, i) && Request(i)
    ensures View(Step(s, i), MemoryAfter(s, m, i), a) ==
            if i.wr && Outputs(s, i, IDLE).ack && WordAdr(a) == WordAdr(i.adr)
            then Overlay(View(s, m, a), SpreadData(i.width, i.wdata), AccessBytes(i.width, i.adr))
            else View(s, m, a)
  {
    RetiringKeepsView(s, m, i, a);
    if Accepts(s, i) {
      MergingStores(s, m, MemoryAfter(s, m, i), i, a);
    }
  }

  // ---------- Whole runs ----------

  // A store as the program issued it, cut to the bytes it writes.
  datatype Store = Store(adr: Adr, data: Word, sel: ByteSel)

  function MakeStore(adr: Adr, data: Word, sel: ByteSel): Store {
    Store(adr, Overlay(ZERO_WORD, data, sel), sel)
  }

  // The word at 'a' after 'stores' in program order, 'w' being the word before.
  function ProgramOrder(w: Word, a: Adr, stores: seq<Store>): Word
    decreases |stores|
  {
    if stores == [] then w
    else ProgramOrder(if stores[0].adr == a then Overlay(w, stores[0].data, stores[0].sel) else w, a, stores[1..])
  }

  // The stores accepted, and the writes acknowledged by memory, in one cycle.
  function AcceptedNow(s: State, i: Inputs): seq<Store>
    requires |s.slots| == WBUF_SIZE
  {
    if i.wr && Outputs(s, i, IDLE).ack
    then [MakeStore(WordAdr(i.adr), SpreadData(i.width, i.wdata), AccessBytes(i.width, i.adr))] else []
  }

  function WrittenNow(s: State, i: Inputs): seq<Store>
    requires |s.slots| == WBUF_SIZE
  {
    var g := Outputs(s, i, IDLE);
    if i.wpAck then [MakeStore(g.wpAdr, g.wpData, g.wpSel)] else []
  }

  // The run of 'ins' is one of aligned requests answered by memory.
  predicate Answered(s: State, ins: seq<Inputs>)
    requires |s.slots| == WBUF_SIZE
    decreases |ins|
  {
    ins == [] ||
    (MemoryAnswers(s, ins[0]) && Request(ins[0]) && Answered(Step(s, ins[0]), ins[1..]))
  }

  predicate Requests(ins: seq<Inputs>) {
    forall k | 0 <= k < |ins| :: Request(ins[k])
  }

  function Run(s: State, ins: seq<Inputs>): (r: State)
    requires |s.slots| == WBUF_SIZE && Requests(ins)
    ensures |r.slots| == WBUF_SIZE
    decreases |ins|
  {
    if ins == [] then s else Run(Step(s, ins[0]), ins[1..])
  }

  function RunMemory(s: State, m: Memory, ins: seq<Inputs>): Memory
    requires |s.slots| == WBUF_SIZE && Requests(ins)
    decreases |ins|
  {
    if ins == [] then m else RunMemory(Step(s, ins[0]), MemoryAfter(s, m, ins[0]), ins[1..])
  }

  function Accepted(s: State, ins: seq<Inputs>): seq<Store>
    requires |s.slots| == WBUF_SIZE && Requests(ins)
    decreases |ins|
  {
    if ins == [] then [] else AcceptedNow(s, ins[0]) + Accepted(Step(s, ins[0]), ins[1..])
  }

  function Written(s: State, ins: seq<Inputs>): seq<Store>
    requires |s.slots| == WBUF_SIZE && Requests(ins)
    decreases |ins|
  {
    if ins == [] then [] else WrittenNow(s, ins[0]) + Written(Step(s, ins[0]), ins[1..])
  }

  lemma {:induction false} AnsweredRequests(s: State, ins: seq<Inputs>)
    requires |s.slots| == WBUF_SIZE && Answered(s, ins)
    ensures Requests(ins)
    decreases |ins|
  {
    if ins != [] {
      AnsweredRequests(Step(s, ins[0]), ins[1..]);
      assert forall k | 0 < k < |ins| :: ins[k] == ins[1..][k - 1];
    }
  }

  lemma {:induction false} ProgramOrderAppend(w: Word, a: Adr, first: seq<Store>, second: seq<Store>)
    ensures ProgramOrder(w, a, first + second) == ProgramOrder(ProgramOrder(w, a, first), a, second)
    decreases |first|
  {
    if first == [] {
      assert first + second == second;
    } else {
      var w' := if first[0].adr == a then Overlay(w, first[0].data, first[0].sel) else w;
      ProgramOrderAppend(w', a, first[1..], second);
      assert (first + second)[1..] == first[1..] + second;
    }
  }

  // After any run the program sees exactly its accepted stores, in program order, over what it saw before.
  lemma {:induction false} RunRefines(s: State, m: Memory, ins: seq<Inputs>, a: Adr)
    requires Valid(s) && Synced(s, m) && Answered(s, ins) && Requests(ins)
    ensures Valid(Run(s, ins)) && Synced(Run(s, ins), RunMemory(s, m, ins))
    ensures View(Run(s, ins), RunMemory(s, m, ins), a) == ProgramOrder(View(s, m, a), WordAdr(a), Accepted(s, ins))
    decreases |ins|
  {
    if ins != [] {
      StepKeepsValid(s, m, ins[0]);
      StepRefines(s, m, ins[0], a);
      RunRefines(Step(s, ins[0]), MemoryAfter(s, m, ins[0]), ins[1..], a);
      ProgramOrderAppend(View(s, m, a), WordAdr(a), AcceptedNow(s, ins[0]), Accepted(Step(s, ins[0]), ins[1..]));
      StoreCut(View(s, m, a), SpreadData(ins[0].width, ins[0].wdata), AccessBytes(ins[0].width, ins[0].adr));
    }
  }

  lemma StoreCut(w: Word, data: Word, sel: ByteSel)
    ensures Overlay(w, Overlay(ZERO_WORD, data, sel), sel) == Overlay(w, data, sel)
  {}

  // The registers after reset: whatever the slots contain, none of it counts.
  predicate Reset(s: State) {
    |s.slots| == WBUF_SIZE && Flushed(s.slots) && !s.dirty0
  }

  lemma {:induction false} AnsweredPrefix(s: State, ins: seq<Inputs>, k: nat)
    requires |s.slots| == WBUF_SIZE && Answered(s, ins) && Requests(ins) && k < |ins|
    ensures Answered(s, ins[..k])
    ensures MemoryAnswers(Run(s, ins[..k]), ins[k])
    decreases |ins|
  {
    if k > 0 {
      AnsweredPrefix(Step(s, ins[0]), ins[1..], k - 1);
      assert ins[..k][1..] == ins[1..][..k - 1];
    }
  }

  // ---------- I/O stores ----------

  function OnlyIo(stores: seq<Store>): seq<Store> {
    if stores == [] then []
    else (if AdrIsSpecial(stores[0].adr) then [stores[0]] else []) + OnlyIo(stores[1..])
  }

  // The I/O store that is accepted but not yet acknowledged by memory.
  function PendingIo(s: State): seq<Store>
    requires |s.slots| == WBUF_SIZE
  {
    if s.dirty0 then OnlyIo([MakeStore(s.slots[0].adr, s.slots[0].data, s.slots[0].valid)]) else []
  }

  // An I/O store is accepted only when memory holds every store accepted before, and it goes to slot 0 alone.
  lemma IoStoreIsOrdered(s: State, m: Memory, i: Inputs, a: Adr)
    requires Valid(s) && Synced(s, m) && MemoryAnswers(s, i) && Request(i)
    requires AdrIsSpecial(i.adr) && i.wr && Outputs(s, i, IDLE).ack
    ensures MemoryAfter(s, m, i)(WordAdr(a)) == View(s, m, a)
    ensures Flushed(Step(s, i).slots[1..]) && Step(s, i).dirty0
    ensures var x, sel := Step(s, i).slots[0], AccessBytes(i.width, i.adr);
      MakeStore(x.adr, x.data, x.valid) == MakeStore(WordAdr(i.adr), SpreadData(i.width, i.wdata), sel)
        && x.valid == sel
  {
    TargetSlot(s, i);
    StepIsPut(s, i);
    RetiringKeepsView(s, m, i, a);
  }

  lemma IoStepConserves(s: State, m: Memory, i: Inputs)
    requires Valid(s) && Synced(s, m) && MemoryAnswers(s, i) && Request(i)
    ensures PendingIo(s) + OnlyIo(AcceptedNow(s, i)) == OnlyIo(WrittenNow(s, i)) + PendingIo(Step(s, i))
  {
    hide LoadValue, ServedFromBuffer, Forward, Synced;
    StepIsPut(s, i);
    ShapeShift(s.slots);
    OnlyIoOne(MakeStore(s.slots[0].adr, s.slots[0].data, s.slots[0].valid));
    OnlyIoOne(MakeStore(Step(s, i).slots[0].adr, Step(s, i).slots[0].data, Step(s, i).slots[0].valid));
    OnlyIoOne(MakeStore(WordAdr(i.adr), SpreadData(i.width, i.wdata), AccessBytes(i.width, i.adr)));
    if Accepts(s, i) {
      TargetSlot(s, i);
    }
  }

  lemma OnlyIoOne(x: Store)
    ensures OnlyIo([x]) == if AdrIsSpecial(x.adr) then [x] else []
  {
    assert [x][1..] == [];
  }

  lemma {:induction false} OnlyIoAppend(x: seq<Store>, y: seq<Store>)
    ensures OnlyIo(x + y) == OnlyIo(x) + OnlyIo(y)
  {
    if x == [] {
      assert x + y == y;
    } else {
      hide AdrIsSpecial;
      var z := x + y;
      OnlyIoAppend(x[1..], y);
      assert z[0] == x[0] && z[1..] == x[1..] + y;
      var head := if AdrIsSpecial(x[0].adr) then [x[0]] else [];
      assert head + (OnlyIo(x[1..]) + OnlyIo(y)) == (head + OnlyIo(x[1..])) + OnlyIo(y);
    }
  }

  // Over every run the I/O writes that memory acknowledged are the accepted I/O stores: the same bytes, once each
  // and in the same order, but for one that may still be pending.
  lemma {:induction false} IoStoresIssuedOnce(s: State, m: Memory, ins: seq<Inputs>)
    requires Valid(s) && Synced(s, m) && Answered(s, ins) && Requests(ins)
    ensures PendingIo(s) + OnlyIo(Accepted(s, ins)) == OnlyIo(Written(s, ins)) + PendingIo(Run(s, ins))
    decreases |ins|
  {
    if ins != [] {
      var s', m', rest := Step(s, ins[0]), MemoryAfter(s, m, ins[0]), ins[1..];
      StepKeepsValid(s, m, ins[0]);
      IoStepConserves(s, m, ins[0]);
      IoStoresIssuedOnce(s', m', rest);
      OnlyIoAppend(AcceptedNow(s, ins[0]), Accepted(s', rest));
      OnlyIoAppend(WrittenNow(s, ins[0]), Written(s', rest));
      Splice(PendingIo(s), OnlyIo(AcceptedNow(s, ins[0])), OnlyIo(WrittenNow(s, ins[0])), PendingIo(s'),
             OnlyIo(Accepted(s', rest)), OnlyIo(Written(s', rest)), PendingIo(Run(s', rest)));
    }
  }

  lemma Splice<T>(p: seq<T>, a: seq<T>, w: seq<T>, q: seq<T>, a': seq<T>, w': seq<T>, r: seq<T>)
    requires p + a == w + q && q + a' == w' + r
    ensures p + (a + a') == (w + w') + r
  {
    calc {
      p + (a + a');
      (p + a) + a';
      w + (q + a');
      (w + w') + r;
    }
  }

  // ---------- Draining ----------

  function UsedCount(slots: seq<Slot>): (n: nat)
    ensures n <= |slots| && (n == 0 <==> Flushed(slots))
  {
    if slots == [] then 0 else (if slots[0].Used() then 1 else 0) + UsedCount(slots[1..])
  }

  // A write that is requested and not acknowledged is requested again in the next cycle, with the same bytes.
  lemma Slot0Held(s: State, i: Inputs, i': Inputs)
    requires Valid(s) && Request(i) && Outputs(s, i, IDLE).wpWr && !i.wpAck && !Misaligned(i')
    ensures Step(s, i).slots[0] == s.slots[0]
    ensures var g, g' := Outputs(s, i, IDLE), Outputs(Step(s, i), i', IDLE);
      g'.wpWr && g'.wpAdr == g.wpAdr && g'.wpData == g.wpData && g'.wpSel == g.wpSel
  {
    StepIsPut(s, i);
    if Accepts(s, i) {
      TargetSlot(s, i);
    }
  }

  predicate Idle(i: Inputs) {
    !i.rd && !i.wr && !Misaligned(i)
  }

  // No write is requested, or memory acknowledges it.
  predicate Answers(s: State, i: Inputs)
    requires |s.slots| == WBUF_SIZE
  {
    Outputs(s, i, IDLE).wpWr ==> i.wpAck
  }

  // Without a request of the program, such a cycle retires one slot, and any other leaves them alone.
  lemma IdleRetires(s: State, i: Inputs)
    requires Valid(s) && Idle(i) && (i.wpAck ==> Outputs(s, i, IDLE).wpWr)
    ensures UsedCount(Step(s, i).slots) ==
      if UsedCount(s.slots) == 0 || !Answers(s, i) then UsedCount(s.slots) else UsedCount(s.slots) - 1
  {
    var t := ShiftDown(s.slots);
    StepIsPut(s, i);
    ShapeShift(s.slots);
    UsedPrefix(s.slots);
    UsedPrefix(t);
    var n, n' := UsedCount(s.slots), UsedCount(t);
    assert n' > 0 ==> t[n' - 1].Used() && n' < 4 && s.slots[n'].Used();
    assert n' < 3 ==> !t[n'].Used() && !s.slots[n' + 1].Used();
  }

  lemma UsedPrefix(slots: seq<Slot>)
    requires Shape(slots)
    ensures forall k | 0 <= k < |slots| :: slots[k].Used() <==> k < UsedCount(slots)
  {
    UsedPrefixOf(slots);
  }

  lemma {:induction false} UsedPrefixOf(slots: seq<Slot>)
    requires forall i, j | 0 <= i < j < |slots| && slots[j].Used() :: slots[i].Used()
    ensures forall k | 0 <= k < |slots| :: slots[k].Used() <==> k < UsedCount(slots)
  {
    if slots != [] {
      UsedPrefixOf(slots[1..]);
      assert forall k | 1 <= k < |slots| :: slots[k] == slots[1..][k - 1];
    }
  }

  predicate AllIdle(ins: seq<Inputs>) {
    forall k | 0 <= k < |ins| :: Idle(ins[k])
  }

  // The cycles in which no write is requested, or memory acknowledges it.
  function AnsweredCycles(s: State, ins: seq<Inputs>): nat
    requires |s.slots| == WBUF_SIZE && Requests(ins)
    decreases |ins|
  {
    if ins == [] then 0 else (if Answers(s, ins[0]) then 1 else 0) + AnsweredCycles(Step(s, ins[0]), ins[1..])
  }

  // A flush ends: once memory has answered as many requests as there are used slots, however slowly, the buffer is
  // empty and memory holds everything the program stored. Only then is the flush acknowledged.
  lemma {:induction false} FlushTerminates(s: State, m: Memory, ins: seq<Inputs>, a: Adr)
    requires Valid(s) && Synced(s, m) && Answered(s, ins) && Requests(ins) && AllIdle(ins)
    requires AnsweredCycles(s, ins) >= UsedCount(s.slots)
    ensures Flushed(Run(s, ins).slots)
    ensures RunMemory(s, m, ins)(WordAdr(a)) == View(s, m, a)
    decreases |ins|
  {
    if ins != [] && UsedCount(s.slots) > 0 {
      StepKeepsValid(s, m, ins[0]);
      IdleRetires(s, ins[0]);
      StepRefines(s, m, ins[0], a);
      hide Step, Outputs, MemoryAfter, View, Answers;
      FlushTerminates(Step(s, ins[0]), MemoryAfter(s, m, ins[0]), ins[1..], a);
    } else if ins != [] {
      EmptyStays(s, m, ins, a);
    }
  }

  lemma {:induction false} EmptyStays(s: State, m: Memory, ins: seq<Inputs>, a: Adr)
    requires Valid(s) && Synced(s, m) && Answered(s, ins) && Requests(ins) && AllIdle(ins) && Flushed(s.slots)
    ensures Flushed(Run(s, ins).slots) && RunMemory(s, m, ins)(WordAdr(a)) == View(s, m, a)
    decreases |ins|
  {
    if ins != [] {
      StepKeepsValid(s, m, ins[0]);
      IdleRetires(s, ins[0]);
      StepRefines(s, m, ins[0], a);
      EmptyStays(Step(s, ins[0]), MemoryAfter(s, m, ins[0]), ins[1..], a);
    }
  }

  lemma FlushAcknowledged(s: State, i: Inputs)
    requires Valid(s) && Idle(i) && i.flush
    ensures Outputs(s, i, IDLE).ack <==> UsedCount(s.slots) == 0
  {}
}
