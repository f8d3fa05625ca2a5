// What loads deliver. The data of a load are read one cycle after its acknowledge, when the buffer may have moved on
// (sysc/lsu.h:58).

module LsuLoads {
  import opened Words
  import opened LsuSpec
  import opened LsuProofs

  // ---------- Bytes ----------

  function Size(width: Width): nat {
    match width case Full => 4 case Half => 2 case Byte => 1
  }

  // The place of the first byte of an access in its word.
  function Place(width: Width, adr: Adr): (n: nat)
    requires width == Half ==> adr % 2 == 0
    ensures n + Size(width) <= 4
  {
    if width == Full then 0 else adr % 4
  }

  // A store puts the low bytes of its operand, the highest one first, into the bytes from its address on, and leaves
  // the others alone.
  lemma StorePlacesBytes(w: Word, width: Width, adr: Adr, wdata: Word, n: nat)
    requires n < 4 && (width == Half ==> adr % 2 == 0)
    ensures var first, size := Place(width, adr), Size(width);
      Overlay(w, SpreadData(width, wdata), AccessBytes(width, adr)).At(n) ==
      if first <= n < first + size then wdata.At(4 - size + n - first) else w.At(n)
  {}

  // A load takes these bytes as the low ones of its result, and fills the rest with zeros or the sign.
  lemma LoadTakesBytes(w: Word, width: Width, exts: bool, adr: Adr, n: nat)
    requires n < 4 && (width == Half ==> adr % 2 == 0)
    ensures var first, size := Place(width, adr), Size(width);
      LoadValue(w, width, exts, adr).At(n) ==
      if n >= 4 - size then w.At(first + n - (4 - size)) else if exts && w.At(first) >= 0x80 then 0xff else 0
  {}

  // ---------- One load ----------

  // In the cycle after the load 'i' its CPU still shows address, width and extension.
  predicate Shows(i: Inputs, i': Inputs) {
    i'.adr == i.adr && i'.width == i.width && i'.exts == i.exts
  }

  // The read port then delivers the requested word as it was in memory before or after the cycle of the acknowledge.
  ghost predicate Delivers(s: State, m: Memory, i: Inputs, i': Inputs)
    requires |s.slots| == WBUF_SIZE
  {
    var g := Outputs(s, i, IDLE);
    g.rpRd && i.rpAck ==> i'.rpData == m(g.rpAdr) || i'.rpData == MemoryAfter(s, m, i)(g.rpAdr)
  }

  // All bytes of the load are in slot 0, which memory has acknowledged before and which leaves the buffer in this
  // cycle.
  predicate LeavesEarly(s: State, i: Inputs)
    requires |s.slots| == WBUF_SIZE
  {
    !s.dirty0 && Hits(s.slots[0], i.adr) && AccessBytes(i.width, i.adr).Within(s.slots[0].valid)
  }

  predicate AckedLoad(s: State, i: Inputs)
    requires |s.slots| == WBUF_SIZE
  {
    i.rd && Outputs(s, i, IDLE).ack
  }

  // The slot that serves the load holds the same bytes in the next cycle, perhaps one place lower.
  lemma SlotStays(s: State, i: Inputs)
    requires Valid(s) && Request(i) && i.rd
    ensures var t, h := Step(s, i).slots, FindHit(s.slots, i.adr);
      if h < 0 || (h == 0 && !s.dirty0) then FindHit(t, i.adr) < 0
      else FindHit(t, i.adr) >= 0 && t[FindHit(t, i.adr)] == s.slots[h]
  {
    StepIsPut(s, i);
    ShapeShift(s.slots);
    var h := FindHit(s.slots, i.adr);
    var t := Step(s, i).slots;
    if h > 0 || (h == 0 && s.dirty0) {
      var k := if Shifts(s, i) then h - 1 else h;
      HitIs(t, i.adr, k);
    }
  }

  // An acknowledged load delivers the addressed bytes of the view, whatever part of them is still buffered, if and
  // only if its slot does not leave the buffer early. Otherwise nothing is requested from memory, and it delivers
  // whatever the read port shows.
  lemma LoadDeliversView(s: State, m: Memory, i: Inputs, i': Inputs)
    requires Valid(s) && Synced(s, m) && Request(i) && MemoryAnswers(s, i) && AckedLoad(s, i) && Shows(i, i')
    ensures !LeavesEarly(s, i) && Delivers(s, m, i, i') ==>
      Outputs(Step(s, i), i', IDLE).rdata == LoadValue(View(s, m, i.adr), i.width, i.exts, i.adr)
    ensures LeavesEarly(s, i) ==>
      !Outputs(s, i, IDLE).rpRd && Outputs(Step(s, i), i', IDLE).rdata == LoadValue(i'.rpData, i.width, i.exts, i.adr)
  {
    SlotStays(s, i);
    var h, x := FindHit(s.slots, i.adr), i'.rpData;
    if LeavesEarly(s, i) {
      HitIs(s.slots, i.adr, 0);
    } else if Delivers(s, m, i, i') {
      hide Step;
      WordDelivered(s, m, i, i');
    }
  }

  lemma WordDelivered(s: State, m: Memory, i: Inputs, i': Inputs)
    requires Valid(s) && Synced(s, m) && Request(i) && MemoryAnswers(s, i) && AckedLoad(s, i)
    requires !LeavesEarly(s, i) && Delivers(s, m, i, i')
    ensures var h := FindHit(s.slots, i.adr);
      LoadValue(if h < 0 || (h == 0 && !s.dirty0) then i'.rpData
        else Overlay(i'.rpData, s.slots[h].data, s.slots[h].valid), i.width, i.exts, i.adr) ==
      LoadValue(View(s, m, i.adr), i.width, i.exts, i.adr)
  {}

  // ---------- Whole runs ----------

  lemma {:induction false} RunNext(s: State, ins: seq<Inputs>, k: nat)
    requires |s.slots| == WBUF_SIZE && Requests(ins) && k < |ins|
    ensures Run(s, ins[..k + 1]) == Step(Run(s, ins[..k]), ins[k])
    decreases |ins|
  {
    assert Request(ins[0]) && !Misaligned(ins[0]);
    hide Step, Request;
    if k == 0 {
      assert ins[..1] == [ins[0]] && ins[..1][1..] == [];
      assert Run(s, ins[..1]) == Run(Step(s, ins[0]), []);
    } else {
      RunNext(Step(s, ins[0]), ins[1..], k - 1);
      assert ins[..k + 1][1..] == ins[1..][..k] && ins[..k][1..] == ins[1..][..k - 1];
    }
  }

  // After 'k' cycles of a run from reset.
  lemma RunHolds(s: State, m: Memory, ins: seq<Inputs>, k: nat)
    requires Reset(s) && Answered(s, ins) && Requests(ins) && k < |ins|
    ensures var t, n := Run(s, ins[..k]), RunMemory(s, m, ins[..k]);
      Valid(t) && Synced(t, n) && MemoryAnswers(t, ins[k]) && Request(ins[k])
    ensures var a := WordAdr(ins[k].adr);
      View(Run(s, ins[..k]), RunMemory(s, m, ins[..k]), ins[k].adr) == ProgramOrder(m(a), a, Accepted(s, ins[..k]))
  {
    AnsweredPrefix(s, ins, k);
    hide Step, Outputs, Run, RunMemory, Accepted, ProgramOrder;
    RunRefines(s, m, ins[..k], ins[k].adr);
    assert View(s, m, ins[k].adr) == m(WordAdr(ins[k].adr));
  }

  // Every acknowledged load of a run from reset delivers the last-stored bytes at its address, unless its slot leaves
  // the buffer early.
  lemma LoadsReadLastStored(s: State, m: Memory, ins: seq<Inputs>, k: nat)
    requires Reset(s) && Answered(s, ins) && Requests(ins) && k + 1 < |ins| && AckedLoad(Run(s, ins[..k]), ins[k])
    requires !LeavesEarly(Run(s, ins[..k]), ins[k]) && Shows(ins[k], ins[k + 1])
    requires Delivers(Run(s, ins[..k]), RunMemory(s, m, ins[..k]), ins[k], ins[k + 1])
    ensures var a := WordAdr(ins[k].adr);
      Outputs(Run(s, ins[..k + 1]), ins[k + 1], IDLE).rdata ==
      LoadValue(ProgramOrder(m(a), a, Accepted(s, ins[..k])), ins[k].width, ins[k].exts, ins[k].adr)
  {
    hide Step, Outputs, LoadValue, LeavesEarly, Delivers, Run, RunMemory, Accepted, ProgramOrder, View, AckedLoad;
    RunHolds(s, m, ins, k);
    LoadDeliversView(Run(s, ins[..k]), RunMemory(s, m, ins[..k]), ins[k], ins[k + 1]);
    RunNext(s, ins, k);
  }

  // A CPU holds its request until it is acknowledged, and then waits for the data of a load before it makes another
  // one.
  predicate Waits(s: State, i: Inputs, i': Inputs)
    requires |s.slots| == WBUF_SIZE
  {
    if AckedLoad(s, i) then !i'.rd && !i'.wr && Shows(i, i')
    else (i.rd || i.wr) && !Outputs(s, i, IDLE).ack ==> i'.rd == i.rd && i'.wr == i.wr && Shows(i, i')
  }

  // Slot 0 is left in the buffer, already written, only after a cycle in which it served a load or had to take a store.
  lemma CleanSlot(s: State, i: Inputs)
    requires Valid(s) && Request(i) && MemoryAnswers(s, i) && Step(s, i).slots[0].Used() && !Step(s, i).dirty0
    ensures Hold0(s, i) && Step(s, i).slots == s.slots
  {
    StepIsPut(s, i);
    ShapeShift(s.slots);
    if Accepts(s, i) {
      TargetSlot(s, i);
    }
  }

  lemma WaitingLoadStays(s: State, i: Inputs, i': Inputs)
    requires Valid(s) && Request(i) && MemoryAnswers(s, i) && Waits(s, i, i') && i'.rd && Request(i')
    ensures !LeavesEarly(Step(s, i), i')
  {
    if LeavesEarly(Step(s, i), i') {
      CleanSlot(s, i);
    }
  }

  lemma NothingLeaves(s: State, m: Memory, ins: seq<Inputs>, k: nat)
    requires Reset(s) && Answered(s, ins) && Requests(ins) && k < |ins| && ins[k].rd
    requires k > 0 ==> Waits(Run(s, ins[..k - 1]), ins[k - 1], ins[k])
    ensures !LeavesEarly(Run(s, ins[..k]), ins[k])
  {
    hide Step, Outputs, RunMemory, Waits, View, Valid, Synced, Answered, ProgramOrder, Accepted;
    if k > 0 {
      RunHolds(s, m, ins, k - 1);
      RunHolds(s, m, ins, k);
      RunNext(s, ins, k - 1);
      WaitingLoadStays(Run(s, ins[..k - 1]), ins[k - 1], ins[k]);
    } else {
      assert ins[..0] == [];
    }
  }

  // For such a CPU no slot leaves early, so that all its loads are right.
  lemma WaitingLoadsRead(s: State, m: Memory, ins: seq<Inputs>, k: nat)
    requires Reset(s) && Answered(s, ins) && Requests(ins) && k + 1 < |ins| && AckedLoad(Run(s, ins[..k]), ins[k])
    requires forall j | 0 <= j <= k :: Waits(Run(s, ins[..j]), ins[j], ins[j + 1])
    requires Delivers(Run(s, ins[..k]), RunMemory(s, m, ins[..k]), ins[k], ins[k + 1])
    ensures var a := WordAdr(ins[k].adr);
      Outputs(Run(s, ins[..k + 1]), ins[k + 1], IDLE).rdata ==
      LoadValue(ProgramOrder(m(a), a, Accepted(s, ins[..k])), ins[k].width, ins[k].exts, ins[k].adr)
  {
    hide Step, Outputs, LoadValue, LeavesEarly, Delivers, Run, RunMemory, Accepted, ProgramOrder, Answered;
    if k > 0 {
      assert Waits(Run(s, ins[..k - 1]), ins[k - 1], ins[k - 1 + 1]);
    }
    NothingLeaves(s, m, ins, k);
    assert Waits(Run(s, ins[..k]), ins[k], ins[k + 1]);
    LoadsReadLastStored(s, m, ins, k);
  }

  // ---------- Without the wait ----------

  lemma StoreFirst(s: State, a: Adr, x: Word)
    requires Reset(s) && a % 4 == 0
    ensures var i := FullStore(a, x, false);
      MemoryAnswers(s, i) && Step(s, i) == State(s.slots[0 := Slot(a, x, ALL_BYTES)], true, x)
  {}

  lemma FirstLoad(s: State, a: Adr, x: Word, y: Word)
    requires |s.slots| == WBUF_SIZE && a % 4 == 0 && s.slots[0] == Slot(a, x, ALL_BYTES) && s.dirty0
    ensures var i := FullLoad(a, y, true);
      MemoryAnswers(s, i) && AckedLoad(s, i) && Step(s, i) == s.(dirty0 := false)
  {}

  lemma SecondLoad(s: State, a: Adr, x: Word, y: Word)
    requires |s.slots| == WBUF_SIZE && a % 4 == 0 && s.slots[0] == Slot(a, x, ALL_BYTES) && !s.dirty0
    ensures var i := FullLoad(a, y, false);
      && MemoryAnswers(s, i) && AckedLoad(s, i) && Outputs(s, i, IDLE).rdata == x
      && Step(s, i) == s.(slots := ShiftDown(s.slots), dirty0 := s.slots[1].Used())
  {}

  lemma ThenData(s: State, a: Adr, y: Word)
    requires |s.slots| == WBUF_SIZE && a % 4 == 0 && forall k | 0 <= k < WBUF_SIZE :: !s.slots[k].Used()
    ensures var i := FullLoad(a, y, false);
      MemoryAnswers(s, i) && Outputs(s, i, IDLE).rdata == y
  {}

  // A load that follows another one of the same word at once can get any word: there is a run from reset in which a
  // word is stored and loaded twice, and the second load delivers what the read port happens to show.
  lemma SecondLoadLost(s: State, a: Adr, x: Word, y: Word) returns (ins: seq<Inputs>)
    requires Reset(s) && a % 4 == 0
    ensures ins == [FullStore(a, x, false), FullLoad(a, y, true), FullLoad(a, y, false), FullLoad(a, y, false)]
    ensures Requests(ins) && Answered(s, ins)
    ensures AckedLoad(Run(s, ins[..1]), ins[1]) && Outputs(Run(s, ins[..2]), ins[2], IDLE).rdata == x
    ensures AckedLoad(Run(s, ins[..2]), ins[2]) && Outputs(Run(s, ins[..3]), ins[3], IDLE).rdata == y
  {
    hide Step, Outputs, MemoryAnswers, AckedLoad, FullStore, FullLoad, ShiftDown;
    ins := [FullStore(a, x, false), FullLoad(a, y, true), FullLoad(a, y, false), FullLoad(a, y, false)];
    StoreFirst(s, a, x);
    var s1 := Step(s, ins[0]);
    FirstLoad(s1, a, x, y);
    var s2 := Step(s1, ins[1]);
    SecondLoad(s2, a, x, y);
    var s3 := Step(s2, ins[2]);
    AllShiftedOut(s, s2, a, x);
    ThenData(s3, a, y);
    RunOfThree(s, ins);
    assert ins[1..] == [ins[1], ins[2], ins[3]] && ins[1..][1..] == [ins[2], ins[3]] && ins[1..][1..][1..] == [ins[3]];
    assert Answered(s3, [ins[3]]) && Answered(s2, [ins[2], ins[3]]);
  }

  lemma AllShiftedOut(s: State, t: State, a: Adr, x: Word)
    requires Reset(s) && t.slots == s.slots[0 := Slot(a, x, ALL_BYTES)]
    ensures forall k | 0 <= k < WBUF_SIZE :: !ShiftDown(t.slots)[k].Used()
  {}

  lemma RunOfThree(s: State, ins: seq<Inputs>)
    requires |s.slots| == WBUF_SIZE && Requests(ins) && |ins| == 4
    ensures forall k | 0 <= k < 4 :: Request(ins[k])
    ensures Run(s, ins[..1]) == Step(s, ins[0]) && Run(s, ins[..2]) == Step(Step(s, ins[0]), ins[1])
    ensures Run(s, ins[..3]) == Step(Step(Step(s, ins[0]), ins[1]), ins[2])
  {
    hide Step, Request, Run;
    RunNext(s, ins, 0);
    RunNext(s, ins, 1);
    RunNext(s, ins, 2);
    NoCycles(s, ins);
  }

  lemma NoCycles(s: State, ins: seq<Inputs>)
    requires |s.slots| == WBUF_SIZE
    ensures Run(s, ins[..0]) == s
  {}
}
