// The arbiter with its registers, as its methods compute them (sysc/memu.cpp, MArbiter).

module ArbiterUnit {
  import opened Words
  import opened ArbiterSpec
  import opened BankArbiter

  const DONT_CARE := 0xffff_ffff

  // The CPU that comes 'k'-th in priority order.
  function CpuAt(k: nat, prio: nat, n: nat): (i: nat)
    requires k < n && prio < n
    ensures i == Rotated(k, prio, n)
  {
    RotatedIsModulo(k, prio, n);
    (k + prio) % n
  }

  class MArbiter {
    const n: nat       // CPU_CORES
    const banks: nat   // CACHE_BANKS
    const slot: nat    // 1 << ARBITER_METHOD

    // Registers
    var counterReg: nat
    var linelockReg: Lines
    var tagrReg: Lines
    var tagwReg: Lines
    var bankReg: seq<Lines>
    var busifReg: Lines

    // Signals computed within a cycle
    var nextLinelockReg: Lines
    var nextTagrReg: Lines
    var nextTagwReg: Lines
    var nextBankReg: seq<Lines>
    var nextBusifReg: Lines
    var wiadrBank: seq<seq<int>>
    var snoopAdr: Adr
    var snoopStb: Lines

    ghost predicate Valid()
      reads this
    {
      && n > 0 && slot > 0
      && |linelockReg| == |nextLinelockReg| == n + 1
      && |tagrReg| == |nextTagrReg| == 3 * n + 1 && |tagwReg| == |nextTagwReg| == n + 1
      && |busifReg| == |nextBusifReg| == 3 * n
      && |bankReg| == |nextBankReg| == banks
      && (forall b | 0 <= b < banks :: |bankReg[b]| == 3 * n + 1)
      && (forall b | 0 <= b < banks :: |nextBankReg[b]| == 3 * n + 1)
    }

    // Reset: no grants are held.
    constructor (n: nat, banks: nat, slot: nat)
      requires n > 0 && slot > 0
      ensures Valid() && this.n == n && this.banks == banks && this.slot == slot
      ensures NoneSet(linelockReg) && NoneSet(tagrReg) && NoneSet(tagwReg) && NoneSet(busifReg)
      ensures forall b | 0 <= b < banks :: NoneSet(bankReg[b])
    {
      this.n, this.banks, this.slot := n, banks, slot;
      counterReg := 0xffff;
      linelockReg, nextLinelockReg := seq(n + 1, _ => false), seq(n + 1, _ => false);
      tagrReg, nextTagrReg := seq(3 * n + 1, _ => false), seq(3 * n + 1, _ => false);
      tagwReg, nextTagwReg := seq(n + 1, _ => false), seq(n + 1, _ => false);
      busifReg, nextBusifReg := seq(3 * n, _ => false), seq(3 * n, _ => false);
      bankReg := seq(banks, _ => seq(3 * n + 1, _ => false));
      nextBankReg := seq(banks, _ => seq(3 * n + 1, _ => false));
      wiadrBank, snoopAdr, snoopStb := [], DONT_CARE, [];
    }

    // Round robin: the priority moves on every 'slot' cycles.
    function GetPrioCpu(): (p: nat)
      requires n > 0 && slot > 0
      reads this
      ensures p < n
    {
      counterReg / slot % n
    }

    method LineLockMethod(req: Lines, ix: Indices)
      requires Valid() && |req| == n + 1 && |ix.wp| == n
      modifies this`nextLinelockReg
      ensures Valid() && nextLinelockReg == LineLockGrants(linelockReg, req, ix, GetPrioCpu())
    {
      var gnt := Kept(linelockReg, req);
      ghost var kept := gnt;
      if req[n] && !gnt[n] {
        gnt := gnt[n := true];
        for k := 0 to n
          invariant |gnt| == n + 1 && gnt[..n] == kept[..n]
          invariant gnt[n] <==> forall i | 0 <= i < k :: kept[i] ==> ix.wp[i] != ix.bus
        {
          if gnt[k] && ix.wp[k] == ix.bus {
            gnt := gnt[n := false];
          }
        }
      }
      assert gnt[n] == BusLineLock(linelockReg, req, ix);
      nextLinelockReg := LockOneWriter(req, ix, gnt);
    }

    // The write port part of the line lock: the first eligible port if no grant is kept.
    method LockOneWriter(req: Lines, ix: Indices, held: Lines) returns (gnt: Lines)
      requires Valid() && |req| == |held| == n + 1 && |ix.wp| == n
      requires held[..n] == Kept(linelockReg, req)[..n] && held[n] == BusLineLock(linelockReg, req, ix)
      ensures gnt == LineLockGrants(linelockReg, req, ix, GetPrioCpu())
    {
      hide CpuAt;
      ghost var e := LineLockEligible(linelockReg, req, ix);
      ghost var w := First(e, GetPrioCpu(), 0);
      ghost var none := NoneSet(held[..n]);
      gnt := held;
      var k := 0;
      while k < n && NoneSet(gnt[..n])
        invariant 0 <= k <= n && |gnt| == n + 1 && gnt[n] == held[n]
        invariant !none ==> gnt == held
        invariant none && NoneSet(gnt[..n]) ==> gnt == held && First(e, GetPrioCpu(), k) == w
        invariant none && !NoneSet(gnt[..n]) ==> 0 <= w < n && gnt == held[w := true]
      {
        var i := CpuAt(k, GetPrioCpu(), n);
        if req[i] && (!gnt[n] || ix.wp[i] != ix.bus) {
          assert e[i];
          gnt := gnt[i := true];
          assert gnt[..n][i];
        }
        k := k + 1;
      }
      assert forall i | 0 <= i < n :: held[i] == held[..n][i];
    }

    method TagMethod(ready: bool, reqR: Lines, reqW: Lines)
      requires Valid() && |reqR| == 3 * n + 1 && |reqW| == n + 1
      modifies this`nextTagrReg, this`nextTagwReg
      ensures Valid()
      ensures nextTagrReg == if ready then TagReadGrants(tagrReg, reqR, reqW, n) else seq(3 * n + 1, _ => false)
      ensures nextTagwReg == if ready then TagWriteGrants(tagwReg, reqW, nextTagrReg, n, GetPrioCpu())
        else seq(n + 1, _ => false)
    {
      if !ready {
        nextTagrReg, nextTagwReg := seq(3 * n + 1, _ => false), seq(n + 1, _ => false);
      } else {
        nextTagrReg := GrantReaders(reqR, reqW);
        nextTagwReg := GrantWriter(reqW, nextTagrReg);
      }
    }

    // Line 'i' keeps its grant or is the new reader of one of the first 'c' ports.
    static ghost predicate ReaderBelow(kept: Lines, req: Lines, n: nat, c: nat, i: nat)
      requires n > 0 && |kept| == |req| == 3 * n + 1 && i <= 3 * n
    {
      kept[i] || (CpuOf(i, n) < c && !PortTaken(kept, CpuOf(i, n), n) && NewReader(req, CpuOf(i, n), n) == i)
    }

    // A free RAM port of CPU 'c' gets a new reader.
    static method GrantReader(n: nat, req: Lines, held: Lines, c: nat) returns (gnt: Lines)
      requires n > 0 && |req| == |held| == 3 * n + 1 && c < n
      ensures gnt ==
        if !PortTaken(held, c, n) && NewReader(req, c, n) >= 0 then held[NewReader(req, c, n) := true] else held
    {
      gnt := held;
      if !gnt[c] && !gnt[n + c] && !gnt[2 * n + c] && (c != n - 1 || !gnt[3 * n]) {
        if c == n - 1 && req[3 * n] {
          gnt := gnt[3 * n := true];
        } else if req[c] {
          gnt := gnt[c := true];
        } else if req[n + c] {
          gnt := gnt[n + c := true];
        } else if req[2 * n + c] {
          gnt := gnt[2 * n + c := true];
        }
      }
    }

    // Port 'c' is as free as before the loop when its turn comes.
    static lemma ReaderStep(kept: Lines, req: Lines, n: nat, c: nat, gnt: Lines, i: nat)
      requires n > 0 && |kept| == |req| == |gnt| == 3 * n + 1 && c < n && i <= 3 * n
      requires forall j | 0 <= j <= 3 * n :: gnt[j] == ReaderBelow(kept, req, n, c, j)
      ensures ReaderBelow(kept, req, n, c + 1, i) <==>
        gnt[i] || (!PortTaken(gnt, c, n) && NewReader(req, c, n) == i)
    {
      NewReaderIsOfCpu(req, c, n);
      assert gnt[c] == kept[c] && gnt[n + c] == kept[n + c] && gnt[2 * n + c] == kept[2 * n + c];
      assert c == n - 1 ==> gnt[3 * n] == kept[3 * n];
    }

    method GrantReaders(req: Lines, reqW: Lines) returns (gnt: Lines)
      requires Valid() && |req| == 3 * n + 1 && |reqW| == n + 1
      ensures gnt == TagReadGrants(tagrReg, req, reqW, n)
    {
      gnt := Kept(tagrReg, req);
      ghost var kept := gnt;
      if NoneSet(reqW) {
        for c := 0 to n
          invariant |gnt| == 3 * n + 1
          invariant forall i | 0 <= i <= 3 * n :: gnt[i] == ReaderBelow(kept, req, n, c, i)
        {
          forall i | 0 <= i <= 3 * n
            ensures ReaderBelow(kept, req, n, c + 1, i) <==>
              gnt[i] || (!PortTaken(gnt, c, n) && NewReader(req, c, n) == i)
          {
            ReaderStep(kept, req, n, c, gnt, i);
          }
          hide ReaderBelow, NewReader;
          gnt := GrantReader(n, req, gnt, c);
        }
      }
    }

    method GrantWriter(req: Lines, gntR: Lines) returns (gnt: Lines)
      requires Valid() && |gntR| == 3 * n + 1 && |req| == n + 1
      ensures gnt == TagWriteGrants(tagwReg, req, gntR, n, GetPrioCpu())
    {
      gnt := Kept(tagwReg, req);
      if NoneSet(gntR) && NoneSet(gnt) {
        if req[n] {
          gnt := gnt[n := true];
        } else {
          ghost var w := First(req[..n], GetPrioCpu(), 0);
          for k := 0 to n
            invariant First(req[..n], GetPrioCpu(), k) == w && gnt == Kept(tagwReg, req)
          {
            var i := CpuAt(k, GetPrioCpu(), n);
            if req[i] {
              gnt := gnt[i := true];
              break;
            }
          }
        }
      }
    }

    method BankMethod(req: seq<Lines>, wiadr: seq<nat>)
      requires Valid() && |req| == banks && |wiadr| == 3 * n + 1
      requires forall b | 0 <= b < banks :: |req[b]| == 3 * n + 1
      modifies this`nextBankReg, this`wiadrBank
      ensures Valid() && |wiadrBank| == banks
      ensures forall b | 0 <= b < banks :: nextBankReg[b] == BankGrants(bankReg[b], req[b], wiadr, n, GetPrioCpu())
      ensures forall b | 0 <= b < banks :: AddressesDriven(wiadrBank[b], bankReg[b], req[b], wiadr)
    {
      wiadrBank := seq(banks, _ => []);
      for b := 0 to banks
        invariant |nextBankReg| == |wiadrBank| == banks
        invariant forall d | 0 <= d < banks :: |nextBankReg[d]| == 3 * n + 1
        invariant forall d | 0 <= d < b :: nextBankReg[d] == BankGrants(bankReg[d], req[d], wiadr, n, GetPrioCpu())
        invariant forall d | 0 <= d < b :: AddressesDriven(wiadrBank[d], bankReg[d], req[d], wiadr)
      {
        var gnt, adr := GrantBank(bankReg[b], req[b], wiadr);
        nextBankReg := nextBankReg[b := gnt];
        wiadrBank := wiadrBank[b := adr];
      }
    }

    // Each RAM port is driven with the address of the selected line.
    ghost predicate AddressesDriven(adr: seq<int>, reg: Lines, req: Lines, wiadr: seq<nat>)
      requires n > 0 && slot > 0 && |reg| == |req| == |wiadr| == 3 * n + 1
      reads this
    {
      && |adr| == BR_PORTS
      && forall p | 0 <= p < BR_PORTS ::
        var s := Selected(reg, req, n, GetPrioCpu(), p); adr[p] == if s >= 0 then wiadr[s] else DONT_CARE
    }

    // All requests that agree with the address driven to their RAM port, and all kept grants.
    static method MatchPorts(n: nat, prio: nat, reg: Lines, req: Lines, wiadr: seq<nat>, sel: seq<int>, adr: seq<int>)
      returns (gnt: Lines)
      requires n > 0 && prio < n && |reg| == |req| == |wiadr| == 3 * n + 1 && |sel| == |adr| == BR_PORTS
      requires forall p | 0 <= p < BR_PORTS :: sel[p] <= 3 * n && sel[p] == Selected(reg, req, n, prio, p)
      requires forall p | 0 <= p < BR_PORTS :: adr[p] == if sel[p] >= 0 then wiadr[sel[p]] else DONT_CARE
      ensures gnt == Matching(reg, req, wiadr, n, prio)
    {
      hide Selected;
      gnt := Kept(reg, req);
      for i := 0 to 3 * n + 1
        invariant |gnt| == 3 * n + 1
        invariant forall j | 0 <= j < i :: gnt[j] == Matching(reg, req, wiadr, n, prio)[j]
        invariant forall j | i <= j <= 3 * n :: gnt[j] == (reg[j] && req[j])
      {
        var p := RamPort(i, n);
        if sel[p] >= 0 && req[i] && wiadr[i] == adr[p] {
          gnt := gnt[i := true];
        }
      }
    }

    method GrantBank(reg: Lines, req: Lines, wiadr: seq<nat>) returns (gnt: Lines, adr: seq<int>)
      requires Valid() && |reg| == |req| == |wiadr| == 3 * n + 1
      ensures gnt == BankGrants(reg, req, wiadr, n, GetPrioCpu())
      ensures AddressesDriven(adr, reg, req, wiadr)
    {
      hide Selected, Matching, LastWriter;
      var sel := SelectPorts(reg, req);
      adr := seq(BR_PORTS, p requires 0 <= p < BR_PORTS => if sel[p] >= 0 then wiadr[sel[p]] else DONT_CARE);
      gnt := MatchPorts(n, GetPrioCpu(), reg, req, wiadr, sel, adr);
      sel := SelectWriters(n, GetPrioCpu(), gnt, sel);
      gnt := KeepOneWriter(n, gnt, sel);
    }

    // The last kept grant of each RAM port.
    method HeldPorts(gnt: Lines) returns (sel: seq<int>)
      requires Valid() && |gnt| == 3 * n + 1
      ensures |sel| == BR_PORTS && forall p | 0 <= p < BR_PORTS :: sel[p] == LastKept(gnt, n, p, 3 * n + 1)
    {
      sel := [-1, -1];
      for i := 0 to 3 * n + 1
        invariant |sel| == BR_PORTS && forall p | 0 <= p < BR_PORTS :: sel[p] == LastKept(gnt, n, p, i)
      {
        var p := RamPort(i, n);
        if gnt[i] {
          sel := sel[p := i];
        }
      }
    }

    // The line selected for each RAM port.
    method SelectPorts(reg: Lines, req: Lines) returns (sel: seq<int>)
      requires Valid() && |reg| == |req| == 3 * n + 1
      ensures |sel| == BR_PORTS && forall p | 0 <= p < BR_PORTS :: sel[p] == Selected(reg, req, n, GetPrioCpu(), p)
    {
      sel := HeldPorts(Kept(reg, req));
      if req[3 * n] && sel[BR_PORTS - 1] < 0 {
        sel := sel[BR_PORTS - 1 := 3 * n];
      }
      if NoneSet(req) {
        NoChoice(req, 0, 0);
        NoChoice(req, 1, 0);
      } else {
        sel := SelectCpus(n, GetPrioCpu(), req, sel);
      }
    }

    lemma {:induction false} NoChoice(req: Lines, p: nat, k: nat)
      requires Valid() && |req| == 3 * n + 1 && NoneSet(req) && p < BR_PORTS && k <= n
      ensures FirstChoice(req, n, GetPrioCpu(), p, k) == -1
      decreases n - k
    {
      if k < n {
        NoChoice(req, p, k + 1);
      }
    }

    // Port 'p' keeps its held line or gets the choice of the first CPU that requests anything.
    static ghost predicate ChoiceMade(req: Lines, n: nat, prio: nat, held: int, p: nat, sel: int)
      requires |req| == 3 * n + 1 && prio < n
    {
      var choice := FirstChoice(req, n, prio, p, 0);
      sel == if held < 0 && choice >= 0 then choice else held
    }

    // The same with the CPUs before the 'k'-th looked at.
    static ghost predicate Choosing(req: Lines, n: nat, prio: nat, held: int, p: nat, k: nat, sel: int)
      requires |req| == 3 * n + 1 && prio < n && k <= n
    {
      if held >= 0 then sel == held
      else if sel >= 0 then sel == FirstChoice(req, n, prio, p, 0)
      else sel == held && FirstChoice(req, n, prio, p, k) == FirstChoice(req, n, prio, p, 0)
    }

    static lemma ChoosingStart(req: Lines, n: nat, prio: nat, held: int, p: nat)
      requires |req| == 3 * n + 1 && prio < n
      ensures Choosing(req, n, prio, held, p, 0, held)
    {}

    static lemma ChoosingEnd(req: Lines, n: nat, prio: nat, held: int, p: nat, sel: int)
      requires |req| == 3 * n + 1 && prio < n && Choosing(req, n, prio, held, p, n, sel)
      ensures ChoiceMade(req, n, prio, held, p, sel)
    {}

    static lemma ChoosingStep(req: Lines, n: nat, prio: nat, held: int, p: nat, k: nat, sel: int, sel': int)
      requires |req| == 3 * n + 1 && prio < n && k < n && Choosing(req, n, prio, held, p, k, sel)
      requires var c := Rotated(k, prio, n);
        sel' == if c % BR_PORTS == p && sel < 0 && CpuChoice(req, c, n) >= 0 then CpuChoice(req, c, n) else sel
      ensures Choosing(req, n, prio, held, p, k + 1, sel')
    {}

    // A free RAM port is given to its first CPU in priority order that requests anything.
    static method SelectCpus(n: nat, prio: nat, req: Lines, held: seq<int>) returns (sel: seq<int>)
      requires |req| == 3 * n + 1 && prio < n && |held| == BR_PORTS
      ensures |sel| == BR_PORTS
      ensures forall p | 0 <= p < BR_PORTS :: ChoiceMade(req, n, prio, held[p], p, sel[p])
    {
      hide FirstChoice, Choosing, CpuAt;
      sel := held;
      assert Choosing(req, n, prio, held[0], 0, 0, sel[0]) && Choosing(req, n, prio, held[1], 1, 0, sel[1]) by {
        ChoosingStart(req, n, prio, held[0], 0);
        ChoosingStart(req, n, prio, held[1], 1);
      }
      for k := 0 to n
        invariant |sel| == BR_PORTS
        invariant Choosing(req, n, prio, held[0], 0, k, sel[0]) && Choosing(req, n, prio, held[1], 1, k, sel[1])
      {
        var c := CpuAt(k, prio, n);
        var p := c % BR_PORTS;
        ghost var before := sel;
        if sel[p] < 0 {
          if req[c] {
            sel := sel[p := c];
          } else if req[n + c] {
            sel := sel[p := n + c];
          } else if req[2 * n + c] {
            sel := sel[p := 2 * n + c];
          }
        }
        ChoosingStep(req, n, prio, held[0], 0, k, before[0], sel[0]);
        ChoosingStep(req, n, prio, held[1], 1, k, before[1], sel[1]);
      }
      ChoosingEnd(req, n, prio, held[0], 0, sel[0]);
      ChoosingEnd(req, n, prio, held[1], 1, sel[1]);
    }

    // The highest priority write port with a grant replaces the selected line, unless that is the bus interface.
    static ghost predicate WriterMade(m: Lines, n: nat, prio: nat, selected: int, p: nat, k: nat, sel: int)
      requires |m| == 3 * n + 1 && prio < n && k <= n
    {
      sel == if selected == 3 * n then selected else LastWriter(m, n, prio, p, selected, k)
    }

    static method SelectWriters(n: nat, prio: nat, m: Lines, selected: seq<int>) returns (sel: seq<int>)
      requires |m| == 3 * n + 1 && prio < n && |selected| == BR_PORTS
      ensures |sel| == BR_PORTS
      ensures forall p | 0 <= p < BR_PORTS :: WriterMade(m, n, prio, selected[p], p, n, sel[p])
    {
      hide CpuAt;
      sel := selected;
      for k := 0 to n
        invariant |sel| == BR_PORTS
        invariant WriterMade(m, n, prio, selected[0], 0, k, sel[0]) && WriterMade(m, n, prio, selected[1], 1, k, sel[1])
      {
        var c := CpuAt(k, prio, n);
        var p := c % BR_PORTS;
        if sel[p] != 3 * n {
          if m[2 * n + c] {
            sel := sel[p := 2 * n + c];
          }
        }
      }
    }

    // Of the matching write ports and the bus interface only the selected one keeps its grant on each RAM port.
    static method KeepOneWriter(n: nat, m: Lines, sel: seq<int>) returns (gnt: Lines)
      requires n > 0 && |m| == 3 * n + 1 && |sel| == BR_PORTS
      ensures |gnt| == 3 * n + 1
      ensures forall i | 0 <= i <= 3 * n :: gnt[i] == (m[i] && (IsWriter(i, n) ==> sel[RamPort(i, n)] == i))
    {
      gnt := m;
      for c := 0 to n
        invariant |gnt| == 3 * n + 1
        invariant forall i | 0 <= i <= 3 * n :: gnt[i] == (m[i] && (2 * n <= i < 2 * n + c ==> sel[RamPort(i, n)] == i))
      {
        if sel[c % BR_PORTS] != 2 * n + c {
          gnt := gnt[2 * n + c := false];
        }
      }
      if sel[BR_PORTS - 1] != 3 * n {
        gnt := gnt[3 * n := false];
      }
    }

    // The first requesting port of a CPU is granted: data read, instruction read, write.
    static method GrantCpu(n: nat, req: Lines, held: Lines, c: nat) returns (gnt: Lines)
      requires |req| == |held| == 3 * n && c < n
      ensures gnt == if CpuChoice(req, c, n) >= 0 then held[CpuChoice(req, c, n) := true] else held
    {
      gnt := held;
      if req[c] {
        gnt := gnt[c := true];
      } else if req[n + c] {
        gnt := gnt[n + c := true];
      } else if req[2 * n + c] {
        gnt := gnt[2 * n + c := true];
      }
    }

    method BusIfMethod(req: Lines)
      requires Valid() && |req| == 3 * n
      modifies this`nextBusifReg
      ensures Valid() && nextBusifReg == BusIfGrants(busifReg, req, n, GetPrioCpu())
    {
      hide CpuAt;
      var prio, gnt := GetPrioCpu(), Kept(busifReg, req);
      ghost var kept, e := gnt, BusIfEligible(req, n);
      ghost var w := First(e, prio, 0);
      var k := 0;
      while k < n && NoneSet(gnt)
        invariant 0 <= k <= n && |gnt| == 3 * n
        invariant !NoneSet(kept) ==> gnt == kept
        invariant NoneSet(kept) && NoneSet(gnt) ==> gnt == kept && First(e, prio, k) == w
        invariant NoneSet(kept) && !NoneSet(gnt) ==> 0 <= w < n && gnt == kept[CpuChoice(req, w, n) := true]
      {
        var i := CpuAt(k, prio, n);
        gnt := GrantCpu(n, req, gnt, i);
        assert e[i] ==> gnt[CpuChoice(req, i, n)];
        k := k + 1;
      }
      nextBusifReg := gnt;
    }

    // Every write port but the one that has the line lock is told the address. The assertion that there is only one
    // such port is the precondition.
    method SnoopMethod(adrWp: seq<Adr>)
      requires Valid() && |adrWp| == n
      requires forall p, q | 0 <= p < q < n :: !(nextLinelockReg[p] && nextLinelockReg[q])
      modifies this`snoopAdr, this`snoopStb
      ensures Valid() && |snoopStb| == n
      ensures forall p, q | 0 <= p < n && 0 <= q < n && nextLinelockReg[q] ::
        snoopAdr == adrWp[q] && (snoopStb[p] <==> p != q)
      ensures NoneSet(nextLinelockReg[..n]) ==> NoneSet(snoopStb)
    {
      var writer := -1;
      for k := 0 to n
        invariant -1 <= writer < k && (writer >= 0 ==> nextLinelockReg[writer])
        invariant forall i | 0 <= i < k && i != writer :: !nextLinelockReg[i]
      {
        if nextLinelockReg[k] {
          assert writer < 0;
          writer := k;
        }
      }
      if writer >= 0 {
        snoopAdr := adrWp[writer];
        snoopStb := seq(n, _ => true);
        snoopStb := snoopStb[writer := false];
        assert nextLinelockReg[..n][writer];
      } else {
        snoopAdr := DONT_CARE;
        snoopStb := seq(n, _ => false);
      }
    }

    // The clock edge.
    method TransitionThread()
      requires Valid()
      modifies this`counterReg, this`linelockReg, this`tagrReg, this`tagwReg, this`bankReg, this`busifReg
      ensures Valid()
      ensures linelockReg == nextLinelockReg && tagrReg == nextTagrReg && tagwReg == nextTagwReg
      ensures bankReg == nextBankReg && busifReg == nextBusifReg
      ensures counterReg == (old(counterReg) + 1) % (n * slot)
    {
      counterReg := (counterReg + 1) % (n * slot);
      linelockReg := nextLinelockReg;
      tagrReg := nextTagrReg;
      tagwReg := nextTagwReg;
      bankReg := nextBankReg;
      busifReg := nextBusifReg;
    }
  }
}
