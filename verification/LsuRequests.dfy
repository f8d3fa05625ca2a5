// What the load/store unit asks of the memory unit: nothing that is needed goes unrequested, so that a memory that
// answers lets every load and store pass.

module LsuRequests {
  import opened Words
  import opened LsuSpec
  import opened LsuProofs

  // The write that the signals of a cycle request.
  function RequestedWrite(s: State, i: Inputs): seq<Store>
    requires |s.slots| == WBUF_SIZE
  {
    var g := Outputs(s, i, IDLE);
    if g.wpWr then [MakeStore(g.wpAdr, g.wpData, g.wpSel)] else []
  }

  // The bytes of the first slot are not yet in memory.
  ghost predicate Unwritten(s: State, m: Memory)
    requires |s.slots| == WBUF_SIZE
  {
    var x := s.slots[0];
    x.Used() && Overlay(m(x.adr), x.data, x.valid) != m(x.adr)
  }

  // In every run: as long as the first slot has bytes that memory does not hold, they are requested to be written; and
  // so is an accepted I/O store until it is acknowledged, even if the device reads back the same bytes.
  lemma WritesAreRequested(s: State, m: Memory, ins: seq<Inputs>, i: Inputs)
    requires Valid(s) && Synced(s, m) && Answered(s, ins) && Requests(ins) && Request(i)
    ensures var t := Run(s, ins);
      Unwritten(t, RunMemory(s, m, ins)) ==>
        RequestedWrite(t, i) == [MakeStore(t.slots[0].adr, t.slots[0].data, t.slots[0].valid)]
    ensures PendingIo(s) + OnlyIo(Accepted(s, ins)) == OnlyIo(Written(s, ins)) + OnlyIo(RequestedWrite(Run(s, ins), i))
  {
    RunRefines(s, m, ins, 0);
    IoStoresIssuedOnce(s, m, ins);
    assert OnlyIo([]) == [];
    hide Run, RunMemory, Written, Accepted, OnlyIo, Valid, Answered;
  }

  // All bytes of the access are buffered, in a slot of its word.
  predicate Buffered(s: State, i: Inputs)
    requires |s.slots| == WBUF_SIZE
  {
    exists k | 0 <= k < WBUF_SIZE :: Hits(s.slots[k], i.adr) && AccessBytes(i.width, i.adr).Within(s.slots[k].valid)
  }

  // A load is acknowledged exactly if all its bytes are buffered or memory delivers them. Otherwise its word is
  // requested.
  lemma LoadsAreRequested(s: State, i: Inputs)
    requires Valid(s) && Request(i) && i.rd
    ensures var g := Outputs(s, i, IDLE);
      && (g.ack <==> Buffered(s, i) || i.rpAck)
      && (!Buffered(s, i) ==> g.rpRd && g.rpAdr == WordAdr(i.adr))
      && (g.rpRd ==> !Buffered(s, i))
  {
    forall k | 0 <= k < WBUF_SIZE && Hits(s.slots[k], i.adr)
      ensures FindHit(s.slots, i.adr) == k
    {
      HitIs(s.slots, i.adr, k);
    }
  }

  // ---------- A store is accepted ----------

  // Slot 0 is free for other bytes at the end of this cycle.
  predicate FirstIsDone(s: State, i: Inputs)
    requires |s.slots| == WBUF_SIZE
  {
    !s.dirty0 || i.wpAck
  }

  // Exactly when a store is accepted at once. An I/O store needs an empty buffer, or the only slot to be done. Any
  // other one is refused only if slot 0 has its word and still has to be written when the cycle begins, or if four
  // other words are buffered and none of them is done.
  lemma StoreAcceptedIff(s: State, i: Inputs)
    requires Valid(s) && Request(i) && i.wr
    ensures var x := s.slots; Outputs(s, i, IDLE).ack <==>
      if AdrIsSpecial(i.adr) then !x[1].Used() && FirstIsDone(s, i)
      else if Hits(x[0], i.adr) then !s.dirty0
      else FirstIsDone(s, i) || (exists k | 0 < k < WBUF_SIZE :: Hits(x[k], i.adr) || !x[k].Used())
  {
    var x, h := s.slots, FindHit(s.slots, i.adr);
    assert forall k | 0 <= k < WBUF_SIZE && Hits(x[k], i.adr) :: h >= 0;
    assert forall k | 0 < k < WBUF_SIZE && !x[k].Used() :: 0 <= FindEmpty(x) <= k;
  }

  // The CPU holds the store 'i' in all cycles of 'ins'.
  predicate Holds(i: Inputs, ins: seq<Inputs>) {
    i.wr && forall k | 0 <= k < |ins| ::
      ins[k] == i.(rpAck := ins[k].rpAck, rpData := ins[k].rpData, wpAck := ins[k].wpAck)
  }

  // What has to be written before any store fits.
  function Backlog(s: State): nat
    requires |s.slots| == WBUF_SIZE
  {
    2 * UsedCount(s.slots) + if s.dirty0 then 1 else 0
  }

  // A cycle in which a store is not accepted, and memory answers, brings it nearer; others cost nothing.
  lemma StoreComesNearer(s: State, i: Inputs)
    requires Valid(s) && Request(i) && i.wr && (i.wpAck ==> Outputs(s, i, IDLE).wpWr) && !Outputs(s, i, IDLE).ack
    ensures Backlog(Step(s, i)) <= Backlog(s)
    ensures Answers(s, i) ==> Backlog(Step(s, i)) < Backlog(s)
  {
    StepIsPut(s, i);
    if Shifts(s, i) {
      var t := ShiftDown(s.slots);
      ShapeShift(s.slots);
      UsedPrefix(s.slots);
      UsedPrefix(t);
      var n := UsedCount(t);
      assert s.slots[0].Used();
      assert n > 0 ==> t[n - 1].Used() && n < 4 && s.slots[n].Used();
    }
  }

  lemma RunFrom(s: State, ins: seq<Inputs>, k: nat)
    requires |s.slots| == WBUF_SIZE && Requests(ins) && 0 < k <= |ins|
    ensures Run(s, ins[..k]) == Run(Step(s, ins[0]), ins[1..][..k - 1])
  {
    hide Step, Request;
    assert ins[..k][1..] == ins[1..][..k - 1];
  }

  lemma SlotsBound(s: State)
    requires |s.slots| == WBUF_SIZE
    ensures Backlog(s) <= 9
  {}

  // A store that the CPU holds is accepted once memory has answered a few requests, nine at most.
  lemma {:induction false} StoreIsAccepted(s: State, m: Memory, i: Inputs, ins: seq<Inputs>) returns (k: nat)
    requires Valid(s) && Synced(s, m) && Answered(s, ins) && Requests(ins) && Holds(i, ins)
    requires AnsweredCycles(s, ins) > Backlog(s)
    ensures k < |ins| && Outputs(Run(s, ins[..k]), ins[k], IDLE).ack && Backlog(s) <= 9
    decreases |ins|
  {
    SlotsBound(s);
    if Outputs(s, ins[0], IDLE).ack {
      k := 0;
    } else {
      StepKeepsValid(s, m, ins[0]);
      StoreComesNearer(s, ins[0]);
      hide Step, Outputs, MemoryAfter, Valid, Backlog, Answers, Synced, Request, MemoryAnswers, Run;
      k := StoreIsAccepted(Step(s, ins[0]), MemoryAfter(s, m, ins[0]), i, ins[1..]);
      RunFrom(s, ins, k + 1);
      k := k + 1;
    }
  }
}
