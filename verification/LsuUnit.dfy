// The load/store unit as it updates its registers: the buffer arrays are scanned, shifted and merged in place.

module LsuUnit {
  import opened Words
  import opened LsuSpec
  import opened LsuProofs
  import opened LsuMisaligned

  class MLsu {
    const wbuf: array<Slot>   // wbuf_adr, wbuf_data and wbuf_valid
    var wbufDirty0: bool
    var data: Word            // local variable of the transition thread
    var sig: Signals          // output and internal signals

    predicate Valid() {
      wbuf.Length == WBUF_SIZE
    }

    ghost function Regs(): (s: State)
      reads this`wbufDirty0, this`data, wbuf
    {
      State(wbuf[..], wbufDirty0, data)
    }

    // An accepted store has a slot to go to.
    ghost predicate SignalsOk()
      reads this`sig
    {
      sig.write ==> 0 <= sig.entryNew < WBUF_SIZE
    }

    constructor ()
      ensures Valid() && SignalsOk() && fresh(wbuf) && Reset(Regs())
    {
      wbuf := new Slot[WBUF_SIZE](_ => Slot(0, ZERO_WORD, NO_BYTES));
      wbufDirty0, data, sig := false, ZERO_WORD, IDLE;
    }

    method FindWbufHit(adr: Adr) returns (r: int)
      requires Valid()
      ensures r == FindHit(wbuf[..], adr)
    {
      var n := 0;
      while n < WBUF_SIZE
        invariant 0 <= n <= WBUF_SIZE
        invariant forall k | 0 <= k < n :: !Hits(wbuf[k], adr)
      {
        if Hits(wbuf[n], adr) {
          return n;
        }
        n := n + 1;
      }
      return -1;
    }

    method FindEmptyWbufEntry() returns (r: int)
      requires Valid()
      ensures r == FindEmpty(wbuf[..])
    {
      var n := 0;
      while n < WBUF_SIZE
        invariant 0 <= n <= WBUF_SIZE
        invariant forall k | 0 <= k < n :: wbuf[k].Used()
      {
        if !wbuf[n].Used() {
          return n;
        }
        n := n + 1;
      }
      return -1;
    }

    method IsFlushed() returns (r: bool)
      requires Valid()
      ensures r <==> Flushed(wbuf[..])
    {
      var n := 0;
      while n < WBUF_SIZE
        invariant 0 <= n <= WBUF_SIZE
        invariant forall k | 0 <= k < n :: !wbuf[k].Used()
      {
        if wbuf[n].Used() {
          return false;
        }
        n := n + 1;
      }
      return true;
    }

    // The selected bytes of 'top' are copied into 'base' one by one.
    method CopyBytes(base: Word, top: Word, sel: ByteSel) returns (w: Word)
      ensures w == Overlay(base, top, sel)
    {
      w := base;
      var n := 0;
      while n < 4
        invariant 0 <= n <= 4
        invariant forall k | 0 <= k < 4 :: w.At(k) == if k < n && sel.Has(k) then top.At(k) else base.At(k)
      {
        if sel.Has(n) {
          w := w.Replace(n, top);
        }
        n := n + 1;
      }
      assert w.At(0) == w.b0 && w.At(1) == w.b1 && w.At(2) == w.b2 && w.At(3) == w.b3;
    }

    // Everything the unit drives in one cycle.
    method OutputMethod(i: Inputs)
      requires Valid()
      modifies this`sig
      ensures Valid() && sig == Outputs(old(Regs()), i, old(sig))
    {
      var g := ComputeOutputs(i);
      sig := g;
    }

    // The memory word with the buffered bytes of a hit forwarded into it.
    method ForwardBytes(i: Inputs, hit: int) returns (rdata: Word)
      requires Valid() && hit == FindHit(wbuf[..], i.adr)
      ensures rdata == Forward(wbuf[..], i.adr, i.rpData)
    {
      rdata := i.rpData;
      if hit >= 0 {
        rdata := CopyBytes(rdata, wbuf[hit].data, wbuf[hit].valid);
      }
    }

    // The place for an eventual new entry.
    method FindEntry(i: Inputs, hit: int) returns (entry: int)
      requires Valid() && hit == FindHit(wbuf[..], i.adr)
      ensures entry == EntryFor(wbuf[..], i)
    {
      entry := -1;
      if i.wr {
        entry := hit;
        if entry < 0 || AdrIsSpecial(i.adr) {
          entry := FindEmptyWbufEntry();
        }
        if entry < 0 {
          entry := WBUF_SIZE;
        }
      }
    }

    // A load is answered from the buffer or passed on to the memory unit.
    method LoadRequest(i: Inputs, hit: int, bsel: ByteSel) returns (ack: bool, rpRd: bool)
      requires Valid() && hit == FindHit(wbuf[..], i.adr) && bsel == AccessBytes(i.width, i.adr)
      ensures rpRd == (i.rd && !ServedFromBuffer(Regs(), i))
      ensures ack == (i.rd && (ServedFromBuffer(Regs(), i) || i.rpAck))
    {
      ack, rpRd := false, false;
      if i.rd {
        if hit >= 0 && bsel.Within(wbuf[hit].valid) {
          ack := true;
        } else {
          rpRd, ack := true, i.rpAck;
        }
      }
    }

    // Whether the buffer shifts and the store is accepted, 'entry' being its place before the shift.
    method Decide(i: Inputs, hit: int, entry: int) returns (remove: bool, entryNew: int, write: bool)
      requires Valid() && hit == FindHit(wbuf[..], i.adr) && entry == EntryFor(wbuf[..], i)
      ensures remove == Shifts(Regs(), i) && write == Accepts(Regs(), i)
      ensures entryNew == if remove then entry - 1 else entry
    {
      entryNew := entry;
      var hold0 := wbufDirty0 && ((i.rd && hit == 0) || (i.wr && entry == 0));
      remove, write := false, false;
      if !hold0 && (!wbufDirty0 || i.wpAck) && entry != 0 {
        remove := true;
        entryNew := entryNew - 1;
      }
      if 0 <= entryNew < WBUF_SIZE && !(AdrIsSpecial(i.adr) && entryNew != 0) && !hold0 {
        write := true;
      }
    }

    // The signals computed from the registers and inputs. A misaligned access leaves most of them as they were.
    method ComputeOutputs(i: Inputs) returns (g: Signals)
      requires Valid()
      ensures g == Outputs(Regs(), i, sig)
    {
      var hit := FindWbufHit(i.adr);
      if i.width != Byte && i.adr % 2 != 0 {
        return sig.(ack := false, alignErr := true, rpRd := false, rpAdr := WordAdr(i.adr));
      }
      var bsel := AccessBytes(i.width, i.adr);
      var rdata := ForwardBytes(i, hit);
      var ack, rpRd := LoadRequest(i, hit, bsel);

      var flushed := IsFlushed();
      if i.flush && flushed {
        ack := true;
      }

      var entry := FindEntry(i, hit);
      var remove, entryNew, write := Decide(i, hit, entry);
      if write {
        ack := true;
      }
      g := Signals(ack, false, LoadValue(rdata, i.width, i.exts, i.adr), rpRd, WordAdr(i.adr),
                   wbufDirty0, wbuf[0].adr, wbuf[0].data, wbuf[0].valid,
                   SpreadData(i.width, i.wdata), bsel, entry, entryNew, remove, write);
    }

    // The buffer moves down by one slot.
    method ShiftSlots()
      requires Valid()
      modifies wbuf
      ensures Valid() && wbuf[..] == ShiftDown(old(wbuf[..]))
    {
      var n := 0;
      while n < WBUF_SIZE - 1
        invariant 0 <= n <= WBUF_SIZE - 1
        invariant forall k | 0 <= k < n :: wbuf[k] == old(wbuf[k + 1])
        invariant forall k | n <= k < WBUF_SIZE :: wbuf[k] == old(wbuf[k])
      {
        wbuf[n] := wbuf[n + 1];
        n := n + 1;
      }
      wbuf[WBUF_SIZE - 1] := wbuf[WBUF_SIZE - 1].(valid := NO_BYTES);
    }

    // The accepted store is merged into slot 'n' with the data and valid bits read before the shift.
    method StoreEntry(n: nat, adr: Adr, valid: ByteSel)
      requires Valid() && n < WBUF_SIZE
      modifies this`data, wbuf
      ensures Valid() && data == Overlay(old(data), sig.wbData, sig.wbSel)
      ensures wbuf[..] == old(wbuf[..])[n := Slot(WordAdr(adr), data, valid.Union(sig.wbSel))]
    {
      data := CopyBytes(data, sig.wbData, sig.wbSel);
      wbuf[n] := Slot(WordAdr(adr), data, valid.Union(sig.wbSel));
    }

    // The clock edge.
    method TransitionThread(i: Inputs)
      requires Valid() && SignalsOk()
      modifies this`wbufDirty0, this`data, wbuf
      ensures Valid() && Regs() == Next(old(Regs()), sig, i)
    {
      var valid := NO_BYTES;
      if 0 <= sig.entry < WBUF_SIZE {
        data := wbuf[sig.entry].data;
        valid := wbuf[sig.entry].valid;
      }
      if i.wpAck {
        wbufDirty0 := false;
      }
      if sig.remove {
        wbufDirty0 := wbuf[1].Used();
        ShiftSlots();
      }
      if sig.write {
        StoreEntry(sig.entryNew, i.adr, valid);
        if sig.entryNew == 0 {
          wbufDirty0 := true;
        }
      }
    }

    // One clock cycle: the registers move on as specified, those of a misaligned access by the signals that were left.
    method Clock(i: Inputs)
      requires Valid() && SignalsOk()
      modifies this, wbuf
      ensures Valid() && SignalsOk() && sig == Outputs(old(Regs()), i, old(sig))
      ensures !Misaligned(i) ==> Regs() == Step(old(Regs()), i)
      ensures Misaligned(i) ==> Regs() == StaleStep(old(Regs()), i, old(sig))
    {
      OutputMethod(i);
      TransitionThread(i);
    }
  }
}
