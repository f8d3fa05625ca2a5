// The write port and the read port as they compute their outputs and next registers (sysc/memu.cpp, MWritePort and
// MReadPort).

module PortUnits {
  import opened Words
  import opened Address
  import opened WritePortSpec
  import opened ReadPortSpec

  // What a write port drives in one cycle.
  datatype WpOut = WpOut(
    ack: bool, wcondOk: bool, busifOp: BusOp, tagWr: bool, bankWr: bool,
    reqLinelock: bool, reqTagr: bool, reqTagw: bool, reqBank: bool, reqBusif: bool)

  function Outputs(r: WpRegs, i: WpIn, g: WpGnt): WpOut {
    WpOut(Ack(r, i, g), WcondOk(r, i), BusifOp(r, i), TagWr(r, g), BankWr(r, g),
          ReqLinelock(r, i, g.bank), ReqTagr(r, i), ReqTagw(r), ReqBank(r, i), ReqBusif(r, i))
  }

  // The signals that a write port computes within a cycle.
  datatype WpSignals = WpSignals(
    out: WpOut, tagOut: CacheTag, bankDataOut: Word, nextState: WpState, nextTagReg: CacheTag, nextDataReg: Word)

  class MWritePort {
    var stateReg: WpState
    var tagReg: CacheTag
    var dataReg: Word
    var linkAdrReg: Adr
    var linkValidReg: bool

    ghost function Regs(): WpRegs
      reads this
    {
      WpRegs(stateReg, tagReg, dataReg, linkAdrReg, linkValidReg)
    }

    constructor ()
      ensures Regs().state == Init && !Regs().linkValid
    {
      stateReg, linkValidReg := Init, false;
      tagReg, dataReg, linkAdrReg := NO_TAG, ZERO_WORD, 0;
    }

    // The selected bytes come from 'word1', the others from 'word0'.
    static method CombineData(bsel: ByteSel, word0: Word, word1: Word) returns (ret: Word)
      ensures ret == Overlay(word0, word1, bsel)
    {
      ret := word1;
      if bsel != ALL_BYTES {
        for n := 0 to 4
          invariant forall k | 0 <= k < 4 :: ret.At(k) == if k > 3 - n && !bsel.Has(k) then word0.At(k) else word1.At(k)
        {
          if !bsel.Has(3 - n) {
            ret := ret.Replace(3 - n, word0);
          }
        }
        assert ret.At(0) == ret.b0 && ret.At(1) == ret.b1 && ret.At(2) == ret.b2 && ret.At(3) == ret.b3;
      }
    }

    // The new values of the signals that a cycle computes; 'bankDataOut' matters when it is written.
    ghost predicate Computed(v: WpSignals, i: WpIn, g: WpGnt)
      reads this
    {
      && v.out == Outputs(Regs(), i, g) && v.nextState == NextState(Regs(), i, g)
      && v.nextTagReg == (if stateReg.ReadTag? || stateReg.RecheckReadTag? then i.tag else tagReg)
      && v.nextDataReg == (if stateReg.ReadBank? then i.bankData else dataReg)
      && v.tagOut == TagOut(Regs(), i)
      && (v.out.bankWr ==> v.bankDataOut == BankDataOut(Regs(), i))
    }

    // Waiting for a request.
    method InitState(i: WpIn, g: WpGnt) returns (v: WpSignals)
      requires stateReg.Init?
      ensures Computed(v, i, g)
    {
      var nextState := stateReg;
      var ack, busifOp, reqLinelock, tagrReqRd, reqBusif := false, Nothing, false, false, false;
      if i.wr {
        if i.direct {
          reqBusif := true;
          busifOp := DirectWrite;
          if g.busif && !i.busy {
            nextState := Direct;
          }
        } else if i.rlinkWcond && !linkValidReg {
          ack := true;
        } else {
          reqLinelock, tagrReqRd := true, true;
          if g.tagr {
            nextState := if g.linelock then ReadTag else RequestLinelockOnly;
          }
        }
      } else if i.writeback || i.invalidate {
        reqBusif, reqLinelock := true, true;
        if g.linelock && !g.busif {
          nextState := SpecialRequestBusifOnly;
        }
        if g.busif && !i.busy {
          nextState := Special;
        }
      }
      var out := WpOut(ack, linkValidReg && linkAdrReg == i.adr, busifOp, false, false,
                       reqLinelock, tagrReqRd, false, false, reqBusif);
      v := WpSignals(out, tagReg, dataReg, nextState, tagReg, dataReg);
    }

    // Waiting for the bus interface or the line lock.
    method WaitStates(i: WpIn, g: WpGnt) returns (v: WpSignals)
      requires
        || stateReg.Direct? || stateReg.RequestLinelockOnly? || stateReg.RequestBusifOnly?
        || stateReg.SpecialRequestBusifOnly? || stateReg.Special? || stateReg.SpecialWaitComplete?
      ensures Computed(v, i, g)
    {
      var nextState := stateReg;
      var ack, busifOp, reqLinelock, tagrReqRd, reqBusif := false, Nothing, false, false, false;
      match stateReg {
        case Direct =>
          reqBusif := true;
          busifOp := DirectWrite;
          if i.busy {
            ack := true;
            nextState := Init;
          }
        case RequestLinelockOnly =>
          reqLinelock := true;
          if g.linelock {
            nextState := Init;
          }
        case RequestBusifOnly =>
          reqBusif := true;
          if g.busif {
            nextState := Miss;
          }
        case SpecialRequestBusifOnly =>
          reqBusif := true;
          if g.busif {
            nextState := Init;
          }
        case Special =>
          reqBusif, reqLinelock := true, true;
          busifOp := if i.writeback && i.invalidate then Flush else if i.writeback then Writeback else Invalidate;
          if i.busy {
            nextState := SpecialWaitComplete;
          }
        case SpecialWaitComplete =>
          reqBusif, reqLinelock := true, true;
          if !i.busy {
            ack := true;
            nextState := Init;
          }
      }
      var out := WpOut(ack, linkValidReg && linkAdrReg == i.adr, busifOp, false, false,
                       reqLinelock, tagrReqRd, false, false, reqBusif);
      v := WpSignals(out, tagReg, dataReg, nextState, tagReg, dataReg);
    }

    // The tag is captured.
    method TagStates(i: WpIn, g: WpGnt) returns (v: WpSignals)
      requires stateReg.ReadTag? || stateReg.RecheckReadTag?
      ensures Computed(v, i, g)
    {
      var nextState, tagOut, nextTagReg, nextDataReg := stateReg, tagReg, tagReg, dataReg;
      var reqLinelock, bankReqRd, reqBusif := false, false, false;
      match stateReg {
        case ReadTag =>
          reqLinelock := true;
          if i.bsel != ALL_BYTES {
            bankReqRd := true;
          }
          tagOut, nextTagReg := i.tag, i.tag;
          if i.tag.valid {
            if i.bsel == ALL_BYTES {
              nextState := if i.tag.dirty then WriteBank else WriteTag1AndBank;
            } else if g.bank {
              nextState := ReadBank;
            } else {
              nextState := HaveTagRequestBank;
            }
          } else {
            nextState := Miss;
          }
        case RecheckReadTag =>
          reqBusif, reqLinelock := true, true;
          nextTagReg := i.tag;
          if i.tag.valid {
            if i.bsel == ALL_BYTES {
              nextState := if i.tag.dirty then WriteBank else WriteTag1AndBank;
            } else {
              nextState := HaveTagRequestBank;
            }
          } else {
            nextState := Replace;
          }
      }
      var out := WpOut(false, linkValidReg && linkAdrReg == i.adr, Nothing, false, false,
                       reqLinelock, false, false, bankReqRd, reqBusif);
      v := WpSignals(out, tagOut, dataReg, nextState, nextTagReg, nextDataReg);
    }

    // The old word is read.
    method ReadStates(i: WpIn, g: WpGnt) returns (v: WpSignals)
      requires stateReg.HaveTagRequestBank? || stateReg.ReadBank?
      ensures Computed(v, i, g)
    {
      var nextState, tagOut, nextTagReg, nextDataReg := stateReg, tagReg, tagReg, dataReg;
      var reqLinelock, bankReqRd, reqBusif := false, false, false;
      match stateReg {
        case HaveTagRequestBank =>
          reqLinelock, bankReqRd := true, true;
          if g.bank {
            nextState := ReadBank;
          }
        case ReadBank =>
          reqLinelock, bankReqRd := true, true;
          nextDataReg := i.bankData;
          nextState := if tagReg.dirty then WriteBank else WriteTag1AndBank;
      }
      var out := WpOut(false, linkValidReg && linkAdrReg == i.adr, Nothing, false, false,
                       reqLinelock, false, false, bankReqRd, reqBusif);
      v := WpSignals(out, tagOut, dataReg, nextState, nextTagReg, nextDataReg);
    }

    // Writing the tag and the bank.
    method WriteStates(i: WpIn, g: WpGnt) returns (v: WpSignals)
      requires
        || stateReg.WriteTag1AndBank? || stateReg.WriteTag2AndBank? || stateReg.WriteTag1?
        || stateReg.WriteTag2? || stateReg.WriteBank?
      ensures Computed(v, i, g)
    {
      var nextState, tagOut, bankDataOut := stateReg, tagReg, dataReg;
      var ack, tagWr, bankWr, reqLinelock, reqTagw, bankReqRd := false, false, false, false, false, false;
      match stateReg {
        case WriteTag1AndBank =>
          reqLinelock, reqTagw, bankReqRd := true, true, true;
          tagOut := tagReg.(dirty := true);
          bankDataOut := CombineData(i.bsel, dataReg, i.data);
          if g.bank {
            bankWr := true;
            nextState := WriteTag1;
          }
          if g.tagw {
            tagWr := true;
            nextState := WriteTag2AndBank;
          }
          if g.bank && g.tagw {
            nextState := WriteTag2;
          }
        case WriteTag2AndBank =>
          reqLinelock, reqTagw, bankReqRd := true, true, true;
          tagOut := tagReg.(dirty := true);
          bankDataOut := CombineData(i.bsel, dataReg, i.data);
          if g.bank {
            ack, reqLinelock, bankWr := true, false, true;
            nextState := Init;
          } else {
            nextState := WriteBank;
          }
        case WriteTag1 =>
          reqLinelock, reqTagw := true, true;
          tagOut := tagReg.(dirty := true);
          if g.tagw {
            tagWr := true;
            nextState := WriteTag2;
          }
        case WriteTag2 =>
          reqTagw := true;
          tagOut := tagReg.(dirty := true);
          tagWr, ack := true, true;
          nextState := Init;
        case WriteBank =>
          reqLinelock, bankReqRd, bankWr := true, true, true;
          bankDataOut := CombineData(i.bsel, dataReg, i.data);
          if g.bank {
            ack, reqLinelock := true, false;
            nextState := Init;
          }
      }
      var out := WpOut(ack, linkValidReg && linkAdrReg == i.adr, Nothing, tagWr, bankWr,
                       reqLinelock, false, reqTagw, bankReqRd, false);
      v := WpSignals(out, tagOut, bankDataOut, nextState, tagReg, dataReg);
    }

    // A cache miss: the tag is checked again under the line lock.
    method MissStates(i: WpIn, g: WpGnt) returns (v: WpSignals)
      requires stateReg.Miss? || stateReg.Recheck?
      ensures Computed(v, i, g)
    {
      var nextState := stateReg;
      var busifOp, reqLinelock, tagrReqRd, reqBusif := Nothing, false, false, false;
      match stateReg {
        case Miss =>
          reqBusif, reqLinelock := true, true;
          if g.busif && !i.busy && g.linelock {
            nextState := Recheck;
          } else if !g.busif && g.linelock {
            nextState := RequestBusifOnly;
          }
        case Recheck =>
          reqBusif, reqLinelock, tagrReqRd := true, true, true;
          if g.tagr {
            nextState := RecheckReadTag;
          }
      }
      var out := WpOut(false, linkValidReg && linkAdrReg == i.adr, busifOp, false, false,
                       reqLinelock, tagrReqRd, false, false, reqBusif);
      v := WpSignals(out, tagReg, dataReg, nextState, tagReg, dataReg);
    }

    // The bus interface replaces the line.
    method ReplaceStates(i: WpIn, g: WpGnt) returns (v: WpSignals)
      requires stateReg.Replace? || stateReg.ReplaceWaitBusif?
      ensures Computed(v, i, g)
    {
      var nextState := stateReg;
      var busifOp, reqLinelock, tagrReqRd, reqBusif := Nothing, false, false, false;
      match stateReg {
        case Replace =>
          reqBusif, reqLinelock := true, true;
          busifOp := ReplaceLine;
          if i.busy {
            nextState := ReplaceWaitBusif;
          }
        case ReplaceWaitBusif =>
          reqBusif, reqLinelock := true, true;
          if !i.busy {
            tagrReqRd := true;
            nextState := if g.tagr then ReadTag else Init;
          }
      }
      var out := WpOut(false, linkValidReg && linkAdrReg == i.adr, busifOp, false, false,
                       reqLinelock, tagrReqRd, false, false, reqBusif);
      v := WpSignals(out, tagReg, dataReg, nextState, tagReg, dataReg);
    }

    // Outputs and next state.
    method MainMethod(i: WpIn, g: WpGnt) returns (v: WpSignals)
      ensures Computed(v, i, g)
    {
      hide Computed;
      match stateReg {
        case ReadTag | RecheckReadTag => v := TagStates(i, g);
        case HaveTagRequestBank | ReadBank => v := ReadStates(i, g);
        case WriteTag1AndBank | WriteTag2AndBank | WriteTag1 | WriteTag2 | WriteBank => v := WriteStates(i, g);
        case Miss | Recheck => v := MissStates(i, g);
        case Replace | ReplaceWaitBusif => v := ReplaceStates(i, g);
        case Init => v := InitState(i, g);
        case _ => v := WaitStates(i, g);
      }
    }

    // The link registers: a snooped write to the linked address breaks the link, a new link makes it.
    method LinkMethod(i: WpIn, snoopStb: bool, snoopAdr: Adr) returns (nextLinkAdr: Adr, nextLinkValid: bool)
      ensures forall g :: nextLinkAdr == NextRegs(Regs(), i, g, snoopStb, snoopAdr).linkAdr
      ensures forall g :: nextLinkValid == NextRegs(Regs(), i, g, snoopStb, snoopAdr).linkValid
    {
      nextLinkAdr, nextLinkValid := linkAdrReg, linkValidReg;
      if snoopStb && snoopAdr == linkAdrReg {
        nextLinkValid := false;
      }
      if stateReg == Init && !i.wr && !i.writeback && !i.invalidate && i.rlinkWcond {
        nextLinkAdr, nextLinkValid := i.adr, true;
      }
    }

    // One clock cycle: the outputs are computed, then the registers take over their next values.
    method Clock(i: WpIn, g: WpGnt, snoopStb: bool, snoopAdr: Adr) returns (v: WpSignals)
      modifies this
      ensures old(Computed(v, i, g))
      ensures Regs() == NextRegs(old(Regs()), i, g, snoopStb, snoopAdr)
    {
      hide Outputs, NextState;
      var nextLinkAdr, nextLinkValid := LinkMethod(i, snoopStb, snoopAdr);
      ghost var n := NextRegs(Regs(), i, g, snoopStb, snoopAdr);
      assert nextLinkAdr == n.linkAdr && nextLinkValid == n.linkValid;
      v := MainMethod(i, g);
      stateReg, tagReg, dataReg := v.nextState, v.nextTagReg, v.nextDataReg;
      linkAdrReg, linkValidReg := nextLinkAdr, nextLinkValid;
    }
  }

  // What a read port drives in one cycle.
  datatype RpOut = RpOut(ack: bool, busifOp: BusOp, reqTagr: bool, reqBank: bool, reqBusif: bool)

  function ROutputs(q: RpState, i: RpIn, g: RpGnt): RpOut {
    RpOut(RAck(q, i, g), RBusifOp(q, i), RReqTagr(q, i), RReqBank(q, i), RReqBusif(q, i))
  }

  class MReadPort {
    var stateReg: RpState
    var bankSelReg: nat

    constructor ()
      ensures stateReg == RInit
    {
      stateReg, bankSelReg := RInit, 0;
    }

    // A new request in the initial state, or while the last word is still being read from its bank.
    method NewRequest(i: RpIn, g: RpGnt, tagrReqRd: bool) returns (out: RpOut, nextState: RpState)
      ensures nextState == AcceptState(i, g)
      ensures out == RpOut(i.rd && !i.direct && i.busifHit, if i.rd && i.direct then DirectRead else Nothing,
        tagrReqRd || (i.rd && !i.direct && !i.busifHit), false, i.rd && i.direct)
    {
      out, nextState := RpOut(false, Nothing, tagrReqRd, false, false), RInit;
      if i.rd {
        if i.direct {
          out := out.(busifOp := DirectRead, reqBusif := true);
          if g.busif {
            nextState := RDirectWaitBusif;
          }
        } else if i.busifHit {
          out := out.(ack := true);
        } else {
          out := out.(reqTagr := true);
          if g.tagr {
            nextState := RReadTag;
          }
        }
      }
    }

    // Outputs and next registers. The data delivered is that of the bank after a hit, else that of the bus interface.
    method MainMethod(i: RpIn, g: RpGnt, bank: nat)
      returns (out: RpOut, data: Word, wayOut: nat, nextState: RpState, nextBankSel: nat)
      ensures out == ROutputs(stateReg, i, g) && nextState == RNextState(stateReg, i, g)
      ensures data == RDataOut(stateReg, i) && wayOut == i.tag.way
      ensures nextBankSel == if RAck(stateReg, i, g) && HoldsTag(stateReg) then bank else bankSelReg
    {
      out, data, wayOut := RpOut(false, Nothing, false, false, false), i.busifData, i.tag.way;
      nextState, nextBankSel := stateReg, bankSelReg;
      match stateReg {
        case RInit =>
          out, nextState := NewRequest(i, g, false);
        case RDirectWaitBusif =>
          out := out.(busifOp := DirectRead, reqBusif := true);
          if i.busifHit {
            out := out.(ack := true);
            nextState := RInit;
          }
        case RReadTag =>
          out := out.(reqTagr := true);
          if i.tag.valid {
            out := out.(reqBank := true);
            if g.bank {
              nextBankSel := bank;
              out := out.(ack := true);
              nextState := RReadBank;
            }
          } else {
            nextState := RMissWaitBusif;
          }
        case RReadBank =>
          data := i.bankData;
          out, nextState := NewRequest(i, g, true);
        case RMissWaitBusif =>
          out := out.(reqBusif := true);
          if i.busifHit {
            out := out.(ack := true);
            nextState := RInit;
          } else if g.busif && !i.busy {
            nextState := RMissRequestTag;
          }
        case RMissRequestTag =>
          out := out.(reqBusif := true, reqTagr := true);
          if g.tagr {
            nextState := RMissReadTag;
          }
        case RMissReadTag =>
          out := out.(reqBusif := true, reqTagr := true);
          if i.tag.valid {
            out := out.(reqBank := true);
            if g.bank {
              nextBankSel := bank;
              out := out.(ack := true);
              nextState := RReadBank;
            }
          } else {
            nextState := RMissReplace;
          }
        case RMissReplace =>
          out := out.(busifOp := ReplaceLine, reqBusif := true);
          if i.busifHit {
            out := out.(ack := true);
            nextState := RInit;
          }
      }
    }

    // One clock cycle.
    method Clock(i: RpIn, g: RpGnt, bank: nat) returns (out: RpOut, data: Word, wayOut: nat)
      modifies this
      ensures out == ROutputs(old(stateReg), i, g) && stateReg == RNextState(old(stateReg), i, g)
      ensures data == RDataOut(old(stateReg), i) && wayOut == i.tag.way
      ensures bankSelReg == if RAck(old(stateReg), i, g) && HoldsTag(old(stateReg)) then bank else old(bankSelReg)
    {
      var nextState, nextBankSel;
      out, data, wayOut, nextState, nextBankSel := MainMethod(i, g, bank);
      stateReg, bankSelReg := nextState, nextBankSel;
    }
  }
}
