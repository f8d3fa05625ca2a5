// What an access with an alignment error does to the buffer. The output method returns early and leaves the signals of
// the cycle before, which the transition thread then obeys once more.

module LsuMisaligned {
  import opened Words
  import opened LsuSpec
  import opened LsuProofs

  // The cycle of a misaligned access; 'last' are the signals of the cycle before.
  function StaleStep(s: State, i: Inputs, last: Signals): (r: State)
    requires |s.slots| == WBUF_SIZE && Misaligned(i) && (last.write ==> 0 <= last.entryNew < WBUF_SIZE)
    ensures |r.slots| == WBUF_SIZE
  {
    Next(s, Outputs(s, i, last), i)
  }

  // The write request is stale, too: an acknowledge stores what was offered in the cycle before.
  function StaleMemory(m: Memory, i: Inputs, last: Signals): Memory {
    if i.wpAck then StoreWord(m, last.wpAdr, last.wpData, last.wpSel) else m
  }

  function StaleWrite(i: Inputs, last: Signals): seq<Store> {
    if i.wpAck then [MakeStore(last.wpAdr, last.wpData, last.wpSel)] else []
  }

  // An aligned request 'j' in state 's', then a misaligned access 'i'. Writes are acknowledged only when requested.
  ghost predicate TwoCycles(s: State, j: Inputs, i: Inputs) {
    && Valid(s) && Request(j) && Misaligned(i)
    && (j.wpAck || i.wpAck ==> Outputs(s, j, IDLE).wpWr)
  }

  // The state and the memory after the two cycles.
  function After(s: State, j: Inputs, i: Inputs): (u: State)
    requires |s.slots| == WBUF_SIZE && !Misaligned(j) && Misaligned(i)
    ensures |u.slots| == WBUF_SIZE
  {
    StaleStep(Step(s, j), i, Outputs(s, j, IDLE))
  }

  function MemoryThen(s: State, m: Memory, j: Inputs, i: Inputs): Memory
    requires |s.slots| == WBUF_SIZE && !Misaligned(j)
  {
    StaleMemory(MemoryAfter(s, m, j), i, Outputs(s, j, IDLE))
  }

  // After the two cycles and a run of aligned requests the program sees its stores in program order, as if the
  // misaligned access had not been.
  ghost predicate Unseen(s: State, m: Memory, j: Inputs, i: Inputs, ins: seq<Inputs>, a: Adr)
    requires TwoCycles(s, j, i) && Requests(ins)
  {
    var u, n := After(s, j, i), MemoryThen(s, m, j, i);
    View(Run(u, ins), RunMemory(u, n, ins), a) ==
    ProgramOrder(View(Step(s, j), MemoryAfter(s, m, j), a), WordAdr(a), Accepted(u, ins))
  }

  // The I/O writes that memory acknowledges are the accepted I/O stores, once each and in the same order.
  ghost predicate IoUnseen(s: State, j: Inputs, i: Inputs, ins: seq<Inputs>)
    requires TwoCycles(s, j, i) && Requests(ins)
  {
    var u := After(s, j, i);
    PendingIo(Step(s, j)) + OnlyIo(Accepted(u, ins)) ==
    OnlyIo(StaleWrite(i, Outputs(s, j, IDLE))) + OnlyIo(Written(u, ins)) + PendingIo(Run(u, ins))
  }

  // Neither the program nor a device notices the misaligned access, whatever memory holds and whatever comes after.
  ghost predicate Undisturbed(s: State, j: Inputs, i: Inputs)
    requires TwoCycles(s, j, i)
  {
    forall m: Memory, ins: seq<Inputs> |
      Synced(s, m) && Requests(ins) && Answered(After(s, j, i), ins) ::
      IoUnseen(s, j, i, ins) && forall a :: Unseen(s, m, j, i, ins, a)
  }

  // The same bytes, with the same values.
  predicate SameBytes(d: Word, v: ByteSel, d': Word, v': ByteSel) {
    v == v' && Overlay(ZERO_WORD, d, v) == Overlay(ZERO_WORD, d', v')
  }

  // Exactly when: no I/O write is acknowledged in both cycles, and the buffer is left alone or what is done to it again
  // has no effect. Without an accepted store in the cycle before, nothing that is still to be written is shifted out.
  // A store that went to its slot without a shift is merged again for the same word. A store that was shifted into slot
  // 0 is alone there and is stored again for the same word. A store that was shifted into another slot is stored again
  // behind it, for the word that is shifted out of slot 0 and with that slot's bytes.
  predicate Harmless(s: State, j: Inputs, i: Inputs)
    requires |s.slots| == WBUF_SIZE && !Misaligned(j)
  {
    var t, last := Step(s, j), Outputs(s, j, IDLE);
    var e := last.entryNew;
    && !(i.wpAck && j.wpAck && AdrIsSpecial(s.slots[0].adr))
    && (if !last.write then !(last.remove && t.dirty0)
        else if !last.remove then WordAdr(i.adr) == WordAdr(j.adr)
        else if e == 0 then
          WordAdr(i.adr) == WordAdr(j.adr) && !t.slots[1].Used() && t.slots[0].valid == last.wbSel
        else
          && WordAdr(i.adr) == t.slots[0].adr && (e == WBUF_SIZE - 1 || !t.slots[e + 1].Used())
          && SameBytes(t.slots[0].data, t.slots[0].valid, last.wbData, last.wbSel))
  }

  // ---------- The cycle before ----------

  lemma NoReadData(s: State, j: Inputs)
    requires |s.slots| == WBUF_SIZE && !Misaligned(j)
    ensures Step(s, j.(rpAck := false)) == Step(s, j)
  {
    var j' := j.(rpAck := false);
    assert EntryFor(s.slots, j') == EntryFor(s.slots, j);
    assert Shifts(s, j') == Shifts(s, j) && Accepts(s, j') == Accepts(s, j);
    hide EntryFor, Shifts, Accepts, ServedFromBuffer, Forward, LoadValue, ShiftDown, MergeBase, MergeValid;
    var g, g' := Outputs(s, j, IDLE), Outputs(s, j', IDLE);
    assert MergeBase(s, g) == MergeBase(s, g') && MergeValid(s, g) == MergeValid(s, g') by {
      SameMerge(s, g, g');
    }
  }

  lemma SameMerge(s: State, g: Signals, g': Signals)
    requires g.entry == g'.entry
    ensures MergeBase(s, g) == MergeBase(s, g') && MergeValid(s, g) == MergeValid(s, g')
  {}

  // The state between the two cycles.
  lemma Between(s: State, j: Inputs, i: Inputs, m: Memory)
    requires TwoCycles(s, j, i) && Synced(s, m)
    ensures Valid(Step(s, j)) && Synced(Step(s, j), MemoryAfter(s, m, j))
  {
    NoReadData(s, j);
    StepKeepsValid(s, m, j.(rpAck := false));
  }

  lemma StepValid(s: State, j: Inputs, i: Inputs)
    requires TwoCycles(s, j, i)
    ensures Valid(Step(s, j))
  {
    Between(s, j, i, _ => s.slots[0].data);
  }

  // The slot of an accepted store in the state between.
  lemma StoreInSlot(s: State, j: Inputs, i: Inputs)
    requires TwoCycles(s, j, i) && Outputs(s, j, IDLE).write
    ensures var t, last := Step(s, j), Outputs(s, j, IDLE);
      && Valid(t) && 0 <= last.entryNew < WBUF_SIZE
      && var x := t.slots[last.entryNew];
      && x.Used() && x.adr == WordAdr(j.adr) && last.wbSel.Within(x.valid) && !last.wbSel.Empty()
      && Overlay(x.data, last.wbData, last.wbSel) == x.data
  {
    StepIsPut(s, j);
    StepValid(s, j, i);
  }

  // ---------- What the misaligned access does to the buffer ----------

  lemma QuietBuffer(s: State, j: Inputs, i: Inputs)
    requires TwoCycles(s, j, i) && !Outputs(s, j, IDLE).write && !Outputs(s, j, IDLE).remove
    ensures var t, u := Step(s, j), After(s, j, i);
      t.slots == u.slots == s.slots && t.dirty0 == (s.dirty0 && !j.wpAck) && u.dirty0 == (t.dirty0 && !i.wpAck)
  {
    StepIsPut(s, j);
  }

  lemma ShiftedBuffer(s: State, j: Inputs, i: Inputs)
    requires TwoCycles(s, j, i) && !Outputs(s, j, IDLE).write && Outputs(s, j, IDLE).remove
    ensures var t, u := Step(s, j), After(s, j, i);
      && Valid(t) && t.slots == ShiftDown(s.slots) && u.slots == ShiftDown(t.slots)
      && t.dirty0 == t.slots[0].Used() && u.dirty0 == u.slots[0].Used() && (s.dirty0 ==> j.wpAck)
  {
    StepIsPut(s, j);
    StepValid(s, j, i);
  }

  // The store is merged a second time into its own slot, which gets the address of the misaligned access.
  lemma MergedBuffer(s: State, j: Inputs, i: Inputs)
    requires TwoCycles(s, j, i) && Outputs(s, j, IDLE).write && !Outputs(s, j, IDLE).remove
    ensures var t, u, e := Step(s, j), After(s, j, i), Outputs(s, j, IDLE).entryNew;
      && Valid(t) && 0 <= e < WBUF_SIZE && t.slots[e].Used() && t.slots[e].adr == WordAdr(j.adr)
      && u.slots == t.slots[e := t.slots[e].(adr := WordAdr(i.adr))]
      && (e == 0 ==> !s.dirty0 && t.dirty0 && u.dirty0)
      && (e > 0 ==> s.dirty0 && t.slots[0] == s.slots[0] && t.dirty0 && u.dirty0 == !i.wpAck)
      && !j.wpAck && (s.slots[0].Used() ==> s.slots[0].adr == t.slots[0].adr && (e == 0 ==> !AdrIsSpecial(j.adr)))
      && (forall k | 0 <= k < WBUF_SIZE && k != e :: t.slots[k] == s.slots[k])
  {
    StoreInSlot(s, j, i);
    StepIsPut(s, j);
  }

  // The buffer is shifted a second time, and the store put into the same slot again.
  lemma RepeatedBuffer(s: State, j: Inputs, i: Inputs)
    requires TwoCycles(s, j, i) && Outputs(s, j, IDLE).write && Outputs(s, j, IDLE).remove
    ensures var t, u, last := Step(s, j), After(s, j, i), Outputs(s, j, IDLE);
      var e := last.entryNew;
      && Valid(t) && t.dirty0 && 0 <= e < WBUF_SIZE && t.slots[e].Used() && t.slots[e].adr == WordAdr(j.adr)
      && u.slots == ShiftDown(t.slots)[e := u.slots[e]] && u.slots[e].adr == WordAdr(i.adr)
      && u.slots[e].valid ==
         (if e < WBUF_SIZE - 1 then t.slots[e + 1].valid.Union(last.wbSel) else last.wbSel)
      && Overlay(u.slots[e].data, last.wbData, last.wbSel) == u.slots[e].data
      && u.dirty0 == (e == 0 || t.slots[1].Used()) && (s.dirty0 ==> j.wpAck)
  {
    StoreInSlot(s, j, i);
    StepIsPut(s, j);
  }

  // What is in the buffer between the two cycles, compared with slot 0 before.
  lemma OthersThanFirst(s: State, j: Inputs, i: Inputs)
    requires TwoCycles(s, j, i) && Outputs(s, j, IDLE).write && Outputs(s, j, IDLE).remove
    ensures var t, e := Step(s, j), Outputs(s, j, IDLE).entryNew;
      && 0 <= e < WBUF_SIZE
      && (forall x | 0 <= x < WBUF_SIZE && t.slots[x].Used() && s.slots[0].Used() && s.slots[0].adr == t.slots[x].adr ::
          x == e == 0 && AdrIsSpecial(j.adr) && Flushed(t.slots[1..]) && t.slots[0].valid == Outputs(s, j, IDLE).wbSel)
      && (e > 0 ==> !AdrIsSpecial(t.slots[0].adr))
  {
    StoreInSlot(s, j, i);
    StepIsPut(s, j);
    TargetSlot(s, j);
    ShapeShift(s.slots);
  }

  // ---------- The harmless cases ----------

  // The buffer is in order, and the program sees the same words in it.
  ghost predicate Kept(s: State, m: Memory, j: Inputs, i: Inputs, a: Adr)
    requires TwoCycles(s, j, i)
  {
    var u, n := After(s, j, i), MemoryThen(s, m, j, i);
    Valid(u) && Synced(u, n) && View(u, n, a) == View(Step(s, j), MemoryAfter(s, m, j), a)
  }

  // A write that is acknowledged twice changes memory once.
  lemma StoredTwice(s: State, m: Memory, j: Inputs, i: Inputs, a: Adr)
    requires TwoCycles(s, j, i) && Synced(s, m) && (s.dirty0 ==> j.wpAck)
    ensures MemoryThen(s, m, j, i)(a) == MemoryAfter(s, m, j)(a)
  {
    var s0 := s.slots[0];
    assert Overlay(Overlay(m(a), s0.data, s0.valid), s0.data, s0.valid) == Overlay(m(a), s0.data, s0.valid);
  }

  lemma QuietIsKept(s: State, m: Memory, j: Inputs, i: Inputs, a: Adr)
    requires TwoCycles(s, j, i) && Synced(s, m)
    requires !Outputs(s, j, IDLE).write && !Outputs(s, j, IDLE).remove
    ensures Kept(s, m, j, i, a)
  {
    QuietBuffer(s, j, i);
    QuietWord(s, m, j, i);
    if s.dirty0 && WordAdr(a) == s.slots[0].adr {
      HitIs(s.slots, a, 0);
    }
    hide Outputs, Step, After;
  }

  lemma QuietWord(s: State, m: Memory, j: Inputs, i: Inputs)
    requires TwoCycles(s, j, i)
    ensures var s0, w := s.slots[0], MemoryThen(s, m, j, i)(s.slots[0].adr);
      && Overlay(w, s0.data, s0.valid) == Overlay(MemoryAfter(s, m, j)(s0.adr), s0.data, s0.valid)
      && (i.wpAck || j.wpAck ==> Overlay(w, s0.data, s0.valid) == w)
  {
    var s0, n := s.slots[0], MemoryAfter(s, m, j);
    assert j.wpAck ==> n(s0.adr) == Overlay(m(s0.adr), s0.data, s0.valid);
    assert MemoryThen(s, m, j, i)(s0.adr) == if i.wpAck then Overlay(n(s0.adr), s0.data, s0.valid) else n(s0.adr);
  }

  // Nothing is left to shift out but what memory already holds.
  lemma ShiftIsKept(s: State, m: Memory, j: Inputs, i: Inputs, a: Adr)
    requires TwoCycles(s, j, i) && Synced(s, m)
    requires !Outputs(s, j, IDLE).write && Outputs(s, j, IDLE).remove && !Step(s, j).dirty0
    ensures Kept(s, m, j, i, a)
  {
    ShiftedBuffer(s, j, i);
    StoredTwice(s, m, j, i, WordAdr(a));
    ShapeShift(Step(s, j).slots);
    hide Outputs, Step, After, MemoryThen, MemoryAfter;
  }

  // The store is merged a second time into its own slot.
  lemma MergeIsKept(s: State, m: Memory, j: Inputs, i: Inputs, a: Adr)
    requires TwoCycles(s, j, i) && Synced(s, m)
    requires Outputs(s, j, IDLE).write && !Outputs(s, j, IDLE).remove && WordAdr(i.adr) == WordAdr(j.adr)
    ensures Kept(s, m, j, i, a)
  {
    MergedBuffer(s, j, i);
    hide Step, After;
    var t := Step(s, j);
    assert After(s, j, i).slots == t.slots;
    if s.dirty0 && WordAdr(a) == s.slots[0].adr {
      HitIs(t.slots, a, 0);
    }
  }

  // The store alone in slot 0 is stored there again.
  lemma RepeatIsKept(s: State, m: Memory, j: Inputs, i: Inputs, a: Adr)
    requires TwoCycles(s, j, i) && Synced(s, m) && Harmless(s, j, i)
    requires Outputs(s, j, IDLE).write && Outputs(s, j, IDLE).remove && Outputs(s, j, IDLE).entryNew == 0
    ensures Kept(s, m, j, i, a)
  {
    RepeatedBuffer(s, j, i);
    StoreInSlot(s, j, i);
    StoredTwice(s, m, j, i, WordAdr(a));
    hide Outputs, Step, After, MemoryThen, MemoryAfter;
    var t, u := Step(s, j), After(s, j, i);
    AloneAgain(t.slots, u.slots[0], a, MemoryAfter(s, m, j)(WordAdr(a)));
  }

  lemma AloneAgain(slots: seq<Slot>, x: Slot, a: Adr, w: Word)
    requires Shape(slots) && slots[0].Used() && !slots[1].Used() && x.adr == slots[0].adr
    requires SameBytes(x.data, x.valid, slots[0].data, slots[0].valid)
    ensures Shape(ShiftDown(slots)[0 := x]) && Forward(ShiftDown(slots)[0 := x], a, w) == Forward(slots, a, w)
  {
    ShapeShift(slots);
    assert !slots[2].Used() && !slots[3].Used();
  }

  // The store takes over the bytes of the slot that is shifted out.
  lemma BehindIsKept(s: State, m: Memory, j: Inputs, i: Inputs, a: Adr)
    requires TwoCycles(s, j, i) && Synced(s, m) && Harmless(s, j, i)
    requires Outputs(s, j, IDLE).write && Outputs(s, j, IDLE).remove && Outputs(s, j, IDLE).entryNew > 0
    ensures Kept(s, m, j, i, a)
  {
    RepeatedBuffer(s, j, i);
    OthersThanFirst(s, j, i);
    StoredTwice(s, m, j, i, WordAdr(a));
    var t, u, last := Step(s, j), After(s, j, i), Outputs(s, j, IDLE);
    hide Outputs, Step, After, MemoryThen, MemoryAfter, ShiftDown;
    SlotMovedBack(t.slots, last.entryNew, u.slots[last.entryNew], a, MemoryAfter(s, m, j)(WordAdr(a)));
  }

  // Slot 0 taken out and put in again behind slot 'e', the last one used.
  lemma SlotMovedBack(slots: seq<Slot>, e: nat, x: Slot, a: Adr, w: Word)
    requires Shape(slots) && 0 < e < WBUF_SIZE && slots[e].Used() && (e < WBUF_SIZE - 1 ==> !slots[e + 1].Used())
    requires !AdrIsSpecial(slots[0].adr) && x.adr == slots[0].adr
    requires SameBytes(x.data, x.valid, slots[0].data, slots[0].valid)
    ensures Shape(ShiftDown(slots)[e := x]) && ShiftDown(slots)[e := x][0] == slots[1]
    ensures Forward(ShiftDown(slots)[e := x], a, w) == Forward(slots, a, w)
  {
    var u := ShiftDown(slots);
    ShapeShift(slots);
    ForwardShift(slots, a, w);
    assert !u[e].Used();
    PutKeepsShape(u, e, x);
    PutForward(u, e, x, a, w);
    if WordAdr(a) == slots[0].adr {
      HitIs(slots, a, 0);
    }
  }

  lemma HarmlessIsKept(s: State, m: Memory, j: Inputs, i: Inputs, a: Adr)
    requires TwoCycles(s, j, i) && Synced(s, m) && Harmless(s, j, i)
    ensures Kept(s, m, j, i, a)
  {
    var last := Outputs(s, j, IDLE);
    if last.write {
      if !last.remove {
        MergeIsKept(s, m, j, i, a);
      } else if last.entryNew == 0 {
        RepeatIsKept(s, m, j, i, a);
      } else {
        BehindIsKept(s, m, j, i, a);
      }
    } else if last.remove {
      ShiftIsKept(s, m, j, i, a);
    } else {
      QuietIsKept(s, m, j, i, a);
    }
  }

  // What is still to be written to a device, and what has been written once more.
  lemma HarmlessIo(s: State, j: Inputs, i: Inputs)
    requires TwoCycles(s, j, i) && Harmless(s, j, i)
    ensures PendingIo(Step(s, j)) == OnlyIo(StaleWrite(i, Outputs(s, j, IDLE))) + PendingIo(After(s, j, i))
  {
    var t, u, last := Step(s, j), After(s, j, i), Outputs(s, j, IDLE);
    OnlyIoOne(MakeStore(s.slots[0].adr, s.slots[0].data, s.slots[0].valid));
    OnlyIoOne(MakeStore(t.slots[0].adr, t.slots[0].data, t.slots[0].valid));
    OnlyIoOne(MakeStore(u.slots[0].adr, u.slots[0].data, u.slots[0].valid));
    if last.write {
      if !last.remove {
        MergedBuffer(s, j, i);
      } else {
        RepeatedBuffer(s, j, i);
        StoreInSlot(s, j, i);
        OthersThanFirst(s, j, i);
      }
    } else if last.remove {
      ShiftedBuffer(s, j, i);
    } else {
      QuietBuffer(s, j, i);
    }
  }

  // ---------- The harmful cases ----------

  function Other(b: byte, c: byte): (r: byte)
    ensures r != b && r != c
  {
    if b != 0 && c != 0 then 0 else if b != 1 && c != 1 then 1 else 2
  }

  // A word that shows that different bytes are laid over it.
  lemma OverlayDiffers(d: Word, v: ByteSel, d': Word, v': ByteSel) returns (w: Word)
    requires !SameBytes(d, v, d', v')
    ensures Overlay(w, d, v) != Overlay(w, d', v')
  {
    w := Word(Other(d.b0, d'.b0), Other(d.b1, d'.b1), Other(d.b2, d'.b2), Other(d.b3, d'.b3));
  }

  // Without any further cycle.
  lemma SeenNow(s: State, m: Memory, j: Inputs, i: Inputs, a: Adr)
    requires TwoCycles(s, j, i) && Synced(s, m)
    requires View(After(s, j, i), MemoryThen(s, m, j, i), a) != View(Step(s, j), MemoryAfter(s, m, j), a)
    ensures !Undisturbed(s, j, i)
  {
    hide View, Step, After, MemoryAfter, MemoryThen, Outputs, IoUnseen, Synced;
    var u, n, none := After(s, j, i), MemoryThen(s, m, j, i), [];
    assert Run(u, none) == u && RunMemory(u, n, none) == n && Accepted(u, none) == [];
    assert !Unseen(s, m, j, i, none, a);
    assert Answered(u, none) && Requests(none);
    assert !(IoUnseen(s, j, i, none) && forall b :: Unseen(s, m, j, i, none, b));
  }

  // The memory that holds 'w' at 'a' gives it away.
  lemma WordIsSeen(s: State, j: Inputs, i: Inputs, a: Adr, w: Word)
    requires TwoCycles(s, j, i) && a % 4 == 0
    requires s.slots[0].Used() && s.slots[0].adr == a ==>
      !s.dirty0 && Overlay(w, s.slots[0].data, s.slots[0].valid) == w
    requires Forward(Step(s, j).slots, a, w) != Forward(After(s, j, i).slots, a, w)
    ensures !Undisturbed(s, j, i)
  {
    hide Forward, Step, After, Undisturbed;
    var m: Memory := (x: Adr) => if x == a then w else s.slots[0].data;
    assert MemoryAfter(s, m, j)(a) == MemoryThen(s, m, j, i)(a) == w;
    SeenNow(s, m, j, i, a);
  }

  // The slot of a word that is not in the other buffer.
  lemma LostIsSeen(s: State, j: Inputs, i: Inputs, x: nat)
    requires TwoCycles(s, j, i) && x < WBUF_SIZE && Shape(Step(s, j).slots) && Step(s, j).slots[x].Used()
    requires s.slots[0].Used() ==> s.slots[0].adr != Step(s, j).slots[x].adr
    requires FindHit(After(s, j, i).slots, Step(s, j).slots[x].adr) < 0
    ensures !Undisturbed(s, j, i)
  {
    var slot := Step(s, j).slots[x];
    hide Step, After, Undisturbed;
    HitIs(Step(s, j).slots, slot.adr, x);
    var w := OverlayDiffers(slot.data, slot.valid, ZERO_WORD, NO_BYTES);
    WordIsSeen(s, j, i, slot.adr, w);
  }

  // The other way round.
  lemma AddedIsSeen(s: State, j: Inputs, i: Inputs, x: nat)
    requires TwoCycles(s, j, i) && x < WBUF_SIZE && After(s, j, i).slots[x].Used()
    requires After(s, j, i).slots[x].adr % 4 == 0 && FindHit(After(s, j, i).slots, After(s, j, i).slots[x].adr) == x
    requires s.slots[0].Used() ==> s.slots[0].adr != After(s, j, i).slots[x].adr
    requires FindHit(Step(s, j).slots, After(s, j, i).slots[x].adr) < 0
    ensures !Undisturbed(s, j, i)
  {
    var slot := After(s, j, i).slots[x];
    hide Step, After, Undisturbed;
    var w := OverlayDiffers(slot.data, slot.valid, ZERO_WORD, NO_BYTES);
    WordIsSeen(s, j, i, slot.adr, w);
  }

  // Slot 0 is shifted out although it is not in memory yet.
  lemma ShiftIsSeen(s: State, j: Inputs, i: Inputs)
    requires TwoCycles(s, j, i) && !Outputs(s, j, IDLE).write && Outputs(s, j, IDLE).remove && Step(s, j).dirty0
    ensures !Undisturbed(s, j, i)
  {
    ShiftedBuffer(s, j, i);
    ShapeShift(s.slots);
    ShapeShift(Step(s, j).slots);
    hide Undisturbed, Outputs, Step, After;
    LostIsSeen(s, j, i, 0);
  }

  // A shift takes slot 0 out, and a slot put into place 'e' replaces the next one.
  lemma Replaced(slots: seq<Slot>, e: nat, x: Slot, k: nat)
    requires Shape(slots) && e < WBUF_SIZE && k < WBUF_SIZE && (k == 0 || k == e + 1) && slots[k].Used()
    requires x.adr != slots[k].adr
    ensures FindHit(ShiftDown(slots)[e := x], slots[k].adr) < 0
  {
    ShapeShift(slots);
  }

  lemma ReplacedIsSeen(s: State, j: Inputs, i: Inputs, k: nat)
    requires TwoCycles(s, j, i) && Outputs(s, j, IDLE).write && Outputs(s, j, IDLE).remove
    requires k < WBUF_SIZE && (k == 0 || k == Outputs(s, j, IDLE).entryNew + 1) && Step(s, j).slots[k].Used()
    requires WordAdr(i.adr) != Step(s, j).slots[k].adr
    requires s.slots[0].Used() ==> s.slots[0].adr != Step(s, j).slots[k].adr
    ensures !Undisturbed(s, j, i)
  {
    RepeatedBuffer(s, j, i);
    hide Undisturbed, Outputs, Step, After;
    Replaced(Step(s, j).slots, Outputs(s, j, IDLE).entryNew, After(s, j, i).slots[Outputs(s, j, IDLE).entryNew], k);
    LostIsSeen(s, j, i, k);
  }

  // A slot whose store is merged again for another word, which no other slot has.
  lemma MovedIsSeen(s: State, j: Inputs, i: Inputs)
    requires TwoCycles(s, j, i) && Outputs(s, j, IDLE).write && !Outputs(s, j, IDLE).remove
    requires WordAdr(i.adr) != WordAdr(j.adr)
    requires Outputs(s, j, IDLE).entryNew == 0 && s.slots[0].Used() ==> FindHit(Step(s, j).slots, i.adr) < 0
    ensures !Undisturbed(s, j, i)
  {
    MergedBuffer(s, j, i);
    var t, e := Step(s, j), Outputs(s, j, IDLE).entryNew;
    hide Undisturbed, Outputs, Step, After, TwoCycles;
    Readdressed(t.slots, e, WordAdr(i.adr));
    if e == 0 && s.slots[0].Used() {
      AddedIsSeen(s, j, i, 0);
    } else {
      LostIsSeen(s, j, i, e);
    }
  }

  lemma Readdressed(slots: seq<Slot>, e: nat, a: Adr)
    requires Shape(slots) && e < WBUF_SIZE && slots[e].Used() && a % 4 == 0 && a != slots[e].adr
    ensures var u := slots[e := slots[e].(adr := a)];
      FindHit(u, slots[e].adr) < 0 && (e == 0 ==> FindHit(u, a) == 0) && FindHit(slots, slots[e].adr) == e
  {
    HitIs(slots, slots[e].adr, e);
  }

  // ... and which another slot has as well. The store in front of that slot is not noticed at once, but a later store
  // is merged into it, and when it has been written the program sees the older one again.
  lemma DoubledIsSeen(s: State, j: Inputs, i: Inputs)
    requires TwoCycles(s, j, i) && Outputs(s, j, IDLE).write && !Outputs(s, j, IDLE).remove
    requires Outputs(s, j, IDLE).entryNew == 0 && FindHit(Step(s, j).slots, i.adr) > 0
    ensures !Undisturbed(s, j, i)
  {
    MergedBuffer(s, j, i);
    var t, u, h := Step(s, j), After(s, j, i), FindHit(Step(s, j).slots, i.adr);
    var a, m: Memory := WordAdr(i.adr), _ => s.slots[0].data;
    var n := MemoryThen(s, m, j, i);
    hide Undisturbed, Outputs, Step, After, MemoryThen;
    var x := OverlayDiffers(t.slots[h].data, t.slots[h].valid, ZERO_WORD, NO_BYTES);
    var ins := Rewrite(a, x);
    OldStoreIsBack(u, n, a, x, h);
    StoreIsLast(View(t, MemoryAfter(s, m, j), a), a, x);
    assert !Unseen(s, m, j, i, ins, a);
    assert Synced(s, m) && Requests(ins) && Answered(u, ins);
    assert !(IoUnseen(s, j, i, ins) && forall b :: Unseen(s, m, j, i, ins, b));
  }

  // A store that waits for one cycle, and then its write.
  function Rewrite(a: Adr, x: Word): (ins: seq<Inputs>)
    requires a % 4 == 0
    ensures Requests(ins)
  {
    [FullStore(a, x, true), FullStore(a, x, false), FullStore(a, x, true).(wr := false)]
  }

  lemma StoreIsLast(w: Word, a: Adr, x: Word)
    ensures ProgramOrder(w, a, [MakeStore(a, x, ALL_BYTES)]) == x
  {}

  lemma OldStoreIsBack(u: State, n: Memory, a: Adr, x: Word, h: nat)
    requires |u.slots| == WBUF_SIZE && 0 < h < WBUF_SIZE && a % 4 == 0 && !AdrIsSpecial(a)
    requires u.dirty0 && Hits(u.slots[0], a) && Hits(u.slots[h], a)
    requires forall k | 0 < k < WBUF_SIZE && k != h :: !Hits(u.slots[k], a)
    ensures var ins := Rewrite(a, x);
      && Answered(u, ins) && Accepted(u, ins) == [MakeStore(a, x, ALL_BYTES)]
      && View(Run(u, ins), RunMemory(u, n, ins), a) == Overlay(x, u.slots[h].data, u.slots[h].valid)
  {
    var ins := Rewrite(a, x);
    var u1 := u.(dirty0 := false, carry := u.slots[0].data);
    var u2 := State(u.slots[0 := Slot(a, x, ALL_BYTES)], true, x);
    StoreWaits(u, a, x);
    StoreGoesFirst(u1, a, x);
    WriteShifts(u2, ins[2], MemoryAfter(u1, MemoryAfter(u, n, ins[0]), ins[1]), a, h, x);
    hide Step, Outputs, Request, MemoryAfter, AcceptedNow, Forward;
    ThreeCycles(u, n, ins[0], ins[1], ins[2]);
  }

  lemma ThreeCycles(u: State, n: Memory, i0: Inputs, i1: Inputs, i2: Inputs)
    requires |u.slots| == WBUF_SIZE && Requests([i0, i1, i2]) && Request(i0) && Request(i1) && Request(i2)
    ensures var u1, n1 := Step(u, i0), MemoryAfter(u, n, i0);
      var u2, n2 := Step(u1, i1), MemoryAfter(u1, n1, i1);
      var ins := [i0, i1, i2];
      && Run(u, ins) == Step(u2, i2) && RunMemory(u, n, ins) == MemoryAfter(u2, n2, i2)
      && Accepted(u, ins) == AcceptedNow(u, i0) + AcceptedNow(u1, i1) + AcceptedNow(u2, i2)
      && (MemoryAnswers(u, i0) && MemoryAnswers(u1, i1) && MemoryAnswers(u2, i2) ==> Answered(u, ins))
  {
    hide Step, MemoryAfter, AcceptedNow, MemoryAnswers;
    var u1, n1 := Step(u, i0), MemoryAfter(u, n, i0);
    var u2, n2 := Step(u1, i1), MemoryAfter(u1, n1, i1);
    assert [i0, i1, i2][1..] == [i1, i2] && [i1, i2][1..] == [i2] && [i2][1..] == [];
    assert Run(u2, [i2]) == Step(u2, i2) && RunMemory(u2, n2, [i2]) == MemoryAfter(u2, n2, i2);
    assert Accepted(u2, [i2]) == AcceptedNow(u2, i2);
    assert Run(u1, [i1, i2]) == Run(u2, [i2]) && RunMemory(u1, n1, [i1, i2]) == RunMemory(u2, n2, [i2]);
    assert Accepted(u1, [i1, i2]) == AcceptedNow(u1, i1) + Accepted(u2, [i2]);
    assert MemoryAnswers(u2, i2) ==> Answered(u2, [i2]);
    assert MemoryAnswers(u1, i1) && MemoryAnswers(u2, i2) ==> Answered(u1, [i1, i2]);
  }

  lemma StoreWaits(u: State, a: Adr, x: Word)
    requires |u.slots| == WBUF_SIZE && a % 4 == 0 && !AdrIsSpecial(a) && u.dirty0 && Hits(u.slots[0], a)
    ensures var i := FullStore(a, x, true);
      Step(u, i) == u.(dirty0 := false, carry := u.slots[0].data) && AcceptedNow(u, i) == []
  {}

  lemma StoreGoesFirst(u: State, a: Adr, x: Word)
    requires |u.slots| == WBUF_SIZE && a % 4 == 0 && !AdrIsSpecial(a) && !u.dirty0 && Hits(u.slots[0], a)
    ensures var i := FullStore(a, x, false);
      && Step(u, i) == State(u.slots[0 := Slot(a, x, ALL_BYTES)], true, x)
      && AcceptedNow(u, i) == [MakeStore(a, x, ALL_BYTES)]
  {}

  lemma WriteShifts(u: State, i: Inputs, n: Memory, a: Adr, h: nat, x: Word)
    requires |u.slots| == WBUF_SIZE && 0 < h < WBUF_SIZE && a % 4 == 0 && Idle(i) && i.wpAck
    requires u.slots[0] == Slot(a, x, ALL_BYTES)
    requires Hits(u.slots[h], a) && forall k | 0 < k < WBUF_SIZE && k != h :: !Hits(u.slots[k], a)
    ensures View(Step(u, i), MemoryAfter(u, n, i), a) == Overlay(x, u.slots[h].data, u.slots[h].valid)
    ensures AcceptedNow(u, i) == []
  {
    assert forall w: Word :: Overlay(w, x, ALL_BYTES) == x;
    assert MemoryAfter(u, n, i)(u.slots[0].adr) == Overlay(n(a), x, ALL_BYTES);
  }

  // ---------- The store that is repeated after a shift ----------

  // In place of the slot in front of it.
  lemma FrontIsSeen(s: State, j: Inputs, i: Inputs)
    requires TwoCycles(s, j, i) && Outputs(s, j, IDLE).write && Outputs(s, j, IDLE).remove
    requires Outputs(s, j, IDLE).entryNew == 0 && WordAdr(i.adr) != WordAdr(j.adr)
    ensures !Undisturbed(s, j, i)
  {
    StoreInSlot(s, j, i);
    OthersThanFirst(s, j, i);
    var t, u := Step(s, j), After(s, j, i);
    if s.slots[0].Used() && s.slots[0].adr == t.slots[0].adr {
      RepeatedBuffer(s, j, i);
      hide Undisturbed, Outputs, Step, After;
      AddedIsSeen(s, j, i, 0);
    } else {
      hide Undisturbed, Outputs, Step, After;
      ReplacedIsSeen(s, j, i, 0);
    }
  }

  // Bytes that were stored to the word before are lost.
  lemma BytesLostIsSeen(s: State, j: Inputs, i: Inputs)
    requires TwoCycles(s, j, i) && Outputs(s, j, IDLE).write && Outputs(s, j, IDLE).remove
    requires Outputs(s, j, IDLE).entryNew == 0 && WordAdr(i.adr) == WordAdr(j.adr) && !Step(s, j).slots[1].Used()
    requires Step(s, j).slots[0].valid != Outputs(s, j, IDLE).wbSel
    ensures !Undisturbed(s, j, i)
  {
    RepeatedBuffer(s, j, i);
    OthersThanFirst(s, j, i);
    StoreInSlot(s, j, i);
    var t, u := Step(s, j).slots[0], After(s, j, i).slots[0];
    HitIs(Step(s, j).slots, t.adr, 0);
    hide Undisturbed, Outputs, Step, After;
    var w := OverlayDiffers(t.data, t.valid, u.data, u.valid);
    WordIsSeen(s, j, i, t.adr, w);
  }

  // Other bytes take the place of the slot that is shifted out.
  lemma BehindIsSeen(s: State, j: Inputs, i: Inputs)
    requires TwoCycles(s, j, i) && Outputs(s, j, IDLE).write && Outputs(s, j, IDLE).remove
    requires Outputs(s, j, IDLE).entryNew > 0 && WordAdr(i.adr) == Step(s, j).slots[0].adr
    requires Outputs(s, j, IDLE).entryNew < WBUF_SIZE - 1 ==> !Step(s, j).slots[Outputs(s, j, IDLE).entryNew + 1].Used()
    requires !SameBytes(Step(s, j).slots[0].data, Step(s, j).slots[0].valid, Outputs(s, j, IDLE).wbData,
      Outputs(s, j, IDLE).wbSel)
    ensures !Undisturbed(s, j, i)
  {
    RepeatedBuffer(s, j, i);
    OthersThanFirst(s, j, i);
    StoreInSlot(s, j, i);
    var t, last := Step(s, j), Outputs(s, j, IDLE);
    var x := After(s, j, i).slots[last.entryNew];
    hide Undisturbed, Outputs, Step, After, TwoCycles;
    var w := BehindDiffers(t.slots, last.entryNew, x, last.wbData, last.wbSel);
    WordIsSeen(s, j, i, t.slots[0].adr, w);
  }

  lemma BehindDiffers(slots: seq<Slot>, e: nat, x: Slot, data: Word, sel: ByteSel) returns (w: Word)
    requires Shape(slots) && 0 < e < WBUF_SIZE && slots[e].Used() && (e < WBUF_SIZE - 1 ==> !slots[e + 1].Used())
    requires !AdrIsSpecial(slots[0].adr) && x.adr == slots[0].adr && x.valid == sel && !sel.Empty()
    requires Overlay(x.data, data, sel) == x.data && !SameBytes(slots[0].data, slots[0].valid, data, sel)
    ensures Forward(slots, x.adr, w) != Forward(ShiftDown(slots)[e := x], x.adr, w)
  {
    ShapeShift(slots);
    HitIs(slots, x.adr, 0);
    w := OverlayDiffers(slots[0].data, slots[0].valid, x.data, x.valid);
    PutForward(ShiftDown(slots), e, x, x.adr, w);
  }

  // An I/O write is acknowledged a second time.
  lemma RepeatedIoIsSeen(s: State, j: Inputs, i: Inputs)
    requires TwoCycles(s, j, i) && i.wpAck && j.wpAck && AdrIsSpecial(s.slots[0].adr)
    requires Harmless(s, j, i.(wpAck := false))
    ensures !Undisturbed(s, j, i)
  {
    var t, u, last := Step(s, j), After(s, j, i), Outputs(s, j, IDLE);
    OnlyIoOne(MakeStore(s.slots[0].adr, s.slots[0].data, s.slots[0].valid));
    OnlyIoOne(MakeStore(t.slots[0].adr, t.slots[0].data, t.slots[0].valid));
    OnlyIoOne(MakeStore(u.slots[0].adr, u.slots[0].data, u.slots[0].valid));
    if last.write {
      if !last.remove {
        MergedBuffer(s, j, i);
      } else {
        RepeatedBuffer(s, j, i);
        StoreInSlot(s, j, i);
        OthersThanFirst(s, j, i);
      }
    } else if last.remove {
      ShiftedBuffer(s, j, i);
    } else {
      QuietBuffer(s, j, i);
    }
    hide Outputs, Step, After, Undisturbed;
    IoIsSeen(s, j, i);
  }

  lemma IoIsSeen(s: State, j: Inputs, i: Inputs)
    requires TwoCycles(s, j, i)
    requires PendingIo(Step(s, j)) != OnlyIo(StaleWrite(i, Outputs(s, j, IDLE))) + PendingIo(After(s, j, i))
    ensures !Undisturbed(s, j, i)
  {
    var m: Memory, u, none := _ => s.slots[0].data, After(s, j, i), [];
    IoWithoutCycles(s, j, i);
    assert Synced(s, m);
    hide TwoCycles, Step, After, MemoryThen, Outputs, IoUnseen, Unseen, Synced;
    assert Answered(u, none) && Requests(none);
  }

  lemma IoWithoutCycles(s: State, j: Inputs, i: Inputs)
    requires TwoCycles(s, j, i)
    ensures IoUnseen(s, j, i, []) <==>
      PendingIo(Step(s, j)) == OnlyIo(StaleWrite(i, Outputs(s, j, IDLE))) + PendingIo(After(s, j, i))
  {
    var u := After(s, j, i);
    NoCycles(u);
    hide TwoCycles, Step, After, MemoryThen, Outputs, OnlyIo, PendingIo, StaleWrite, Run, Accepted, Written;
    NothingAdded(PendingIo(Step(s, j)), OnlyIo(Accepted(u, [])), OnlyIo(StaleWrite(i, Outputs(s, j, IDLE))),
      OnlyIo(Written(u, [])), PendingIo(u));
  }

  lemma NothingAdded(p: seq<Store>, a: seq<Store>, w: seq<Store>, w': seq<Store>, q: seq<Store>)
    requires a == w' == []
    ensures p + a == w + w' + q <==> p == w + q
  {
    assert p + [] == p && w + [] == w;
  }

  lemma NoCycles(u: State)
    requires |u.slots| == WBUF_SIZE
    ensures Run(u, []) == u && OnlyIo(Accepted(u, [])) == [] && OnlyIo(Written(u, [])) == []
  {}

  // ---------- The exact condition ----------

  lemma HarmfulIsSeen(s: State, j: Inputs, i: Inputs)
    requires TwoCycles(s, j, i) && !Harmless(s, j, i.(wpAck := false))
    ensures !Undisturbed(s, j, i)
  {
    var t, last := Step(s, j), Outputs(s, j, IDLE);
    var e := last.entryNew;
    hide Undisturbed, Step, Outputs;
    if !last.write {
      ShiftIsSeen(s, j, i);
    } else if !last.remove {
      if e == 0 && s.slots[0].Used() && FindHit(t.slots, i.adr) >= 0 {
        MergedBuffer(s, j, i);
        DoubledIsSeen(s, j, i);
      } else {
        MovedIsSeen(s, j, i);
      }
    } else {
      RepeatedIsSeen(s, j, i);
    }
  }

  lemma RepeatedIsSeen(s: State, j: Inputs, i: Inputs)
    requires TwoCycles(s, j, i) && !Harmless(s, j, i.(wpAck := false))
    requires Outputs(s, j, IDLE).write && Outputs(s, j, IDLE).remove
    ensures !Undisturbed(s, j, i)
  {
    StoreInSlot(s, j, i);
    OthersThanFirst(s, j, i);
    var t, e := Step(s, j), Outputs(s, j, IDLE).entryNew;
    hide Undisturbed, Step, Outputs, TwoCycles;
    if e == 0 && WordAdr(i.adr) != WordAdr(j.adr) {
      FrontIsSeen(s, j, i);
    } else if e == 0 && !t.slots[1].Used() {
      BytesLostIsSeen(s, j, i);
    } else if e > 0 && WordAdr(i.adr) != t.slots[0].adr {
      ReplacedIsSeen(s, j, i, 0);
    } else if e < WBUF_SIZE - 1 && t.slots[e + 1].Used() {
      ReplacedIsSeen(s, j, i, e + 1);
    } else {
      BehindIsSeen(s, j, i);
    }
  }

  lemma HarmlessIsUnseen(s: State, m: Memory, j: Inputs, i: Inputs, ins: seq<Inputs>)
    requires TwoCycles(s, j, i) && Harmless(s, j, i) && Synced(s, m)
    requires Requests(ins) && Answered(After(s, j, i), ins)
    ensures IoUnseen(s, j, i, ins) && forall a :: Unseen(s, m, j, i, ins, a)
  {
    var u, n := After(s, j, i), MemoryThen(s, m, j, i);
    HarmlessIo(s, j, i);
    HarmlessIsKept(s, m, j, i, 0);
    hide Step, After, MemoryThen, MemoryAfter, Outputs, Harmless, View, Answered, Request, OnlyIo, PendingIo;
    IoStoresIssuedOnce(u, n, ins);
    Front(PendingIo(Step(s, j)), OnlyIo(StaleWrite(i, Outputs(s, j, IDLE))), PendingIo(u), OnlyIo(Accepted(u, ins)),
          OnlyIo(Written(u, ins)), PendingIo(Run(u, ins)));
    forall a
      ensures Unseen(s, m, j, i, ins, a)
    {
      hide IoUnseen, Valid;
      HarmlessIsKept(s, m, j, i, a);
      RunRefines(u, n, ins, a);
    }
  }

  lemma Front<T>(p: seq<T>, w: seq<T>, q: seq<T>, a: seq<T>, w': seq<T>, r: seq<T>)
    requires p == w + q && q + a == w' + r
    ensures p + a == w + w' + r
  {
    assert p + a == w + (q + a);
  }

  // A misaligned access after an aligned request is noticed by nobody exactly if it is harmless.
  lemma MisalignedIff(s: State, j: Inputs, i: Inputs)
    requires TwoCycles(s, j, i)
    ensures Undisturbed(s, j, i) <==> Harmless(s, j, i)
  {
    hide Step, After, MemoryThen, Outputs, Unseen, IoUnseen;
    if Harmless(s, j, i) {
      forall m: Memory, ins: seq<Inputs> |
        Synced(s, m) && Requests(ins) && Answered(After(s, j, i), ins)
        ensures IoUnseen(s, j, i, ins) && forall a :: Unseen(s, m, j, i, ins, a)
      {
        HarmlessIsUnseen(s, m, j, i, ins);
      }
    } else if Harmless(s, j, i.(wpAck := false)) {
      RepeatedIoIsSeen(s, j, i);
    } else {
      HarmfulIsSeen(s, j, i);
    }
  }

  // It need not be: after reset, a store to one word is moved to the word of a misaligned access that follows it.
  lemma MisalignedMovesStore(s: State, m: Memory, j: Inputs, i: Inputs)
    requires Reset(s) && TwoCycles(s, j, i) && j.wr && WordAdr(i.adr) != WordAdr(j.adr)
    ensures Outputs(s, j, IDLE).ack && !Harmless(s, j, i)
    ensures var u, n := After(s, j, i), MemoryThen(s, m, j, i);
      && View(u, n, j.adr) == m(WordAdr(j.adr))
      && View(u, n, i.adr) == Overlay(m(WordAdr(i.adr)), SpreadData(j.width, j.wdata), AccessBytes(j.width, j.adr))
  {
    var t, u, last := Step(s, j), After(s, j, i), Outputs(s, j, IDLE);
    assert last.write && !last.remove && last.entryNew == 0;
    MergedBuffer(s, j, i);
    assert t.slots[0].valid == last.wbSel && !t.slots[0].valid.Empty();
    assert forall w: Word :: Overlay(w, t.slots[0].data, last.wbSel) == Overlay(w, last.wbData, last.wbSel);
  }
}
