// The grants of the memory unit's arbiter as functions of its registers and of the request lines
// (sysc/memu.cpp, MArbiter). There are 'n' CPUs, each with a data read port, an instruction read port and a
// write port, and one bus interface. The priority CPU of a cycle is an arbitrary number below 'n'.

module ArbiterSpec {

  type Lines = seq<bool>

  predicate NoneSet(v: Lines) {
    forall k | 0 <= k < |v| :: !v[k]
  }

  // Grants that were given before and are still requested.
  function Kept(reg: Lines, req: Lines): (k: Lines)
    requires |reg| == |req|
    ensures |k| == |reg|
  {
    seq(|reg|, i requires 0 <= i < |reg| => reg[i] && req[i])
  }

  // The CPU that comes 'k'-th in priority order: (k + prio) % n.
  function Rotated(k: nat, prio: nat, n: nat): (i: nat)
    requires k < n && prio < n
    ensures i < n
  {
    if k + prio < n then k + prio else k + prio - n
  }

  lemma RotatedIsModulo(k: nat, prio: nat, n: nat)
    requires k < n && prio < n
    ensures Rotated(k, prio, n) == (k + prio) % n
  {
    var q := (k + prio) / n;
    assert q * n <= k + prio < q * n + n;
    if q >= 2 {
      TwiceAtMost(q, n);
    }
  }

  lemma TwiceAtMost(q: nat, n: nat)
    requires q >= 2
    ensures q * n >= 2 * n
  {}

  // Every CPU comes up in the priority order.
  lemma RotatedCovers(i: nat, prio: nat, n: nat) returns (k: nat)
    requires i < n && prio < n
    ensures k < n && Rotated(k, prio, n) == i
  {
    k := if i >= prio then i - prio else i + n - prio;
  }

  // The first CPU in priority order from the 'k'-th on that is eligible, or -1.
  function First(eligible: Lines, prio: nat, k: nat): (w: int)
    requires prio < |eligible| && k <= |eligible|
    ensures -1 <= w < |eligible| && (w >= 0 ==> eligible[w])
    ensures w == -1 ==> forall j | k <= j < |eligible| :: !eligible[Rotated(j, prio, |eligible|)]
    decreases |eligible| - k
  {
    if k == |eligible| then -1
    else if eligible[Rotated(k, prio, |eligible|)] then Rotated(k, prio, |eligible|)
    else First(eligible, prio, k + 1)
  }

  lemma FirstFindsAny(eligible: Lines, prio: nat)
    requires prio < |eligible|
    ensures First(eligible, prio, 0) == -1 <==> NoneSet(eligible)
  {
    if First(eligible, prio, 0) == -1 {
      forall i | 0 <= i < |eligible|
        ensures !eligible[i]
      {
        var k := RotatedCovers(i, prio, |eligible|);
      }
    }
  }

  // ---------- Line lock: lines 0..n-1 are the write ports, line n is the bus interface ----------

  // The set indices that the ports and the bus interface work on.
  datatype Indices = Indices(wp: seq<nat>, bus: nat)

  function BusLineLock(reg: Lines, req: Lines, ix: Indices): bool
    requires |reg| == |req| == |ix.wp| + 1
  {
    var n := |ix.wp|;
    req[n] && (reg[n] || forall i | 0 <= i < n :: reg[i] && req[i] ==> ix.wp[i] != ix.bus)
  }

  // The write ports that may be given the lock when no port keeps it.
  function LineLockEligible(reg: Lines, req: Lines, ix: Indices): (e: Lines)
    requires |reg| == |req| == |ix.wp| + 1
    ensures |e| == |ix.wp|
  {
    seq(|ix.wp|, i requires 0 <= i < |ix.wp| => req[i] && (BusLineLock(reg, req, ix) ==> ix.wp[i] != ix.bus))
  }

  function LineLockGrants(reg: Lines, req: Lines, ix: Indices, prio: nat): (g: Lines)
    requires |reg| == |req| == |ix.wp| + 1 && prio < |ix.wp|
    ensures |g| == |reg|
  {
    var n := |ix.wp|;
    var kept := Kept(reg, req)[..n];
    var winner := if NoneSet(kept) then First(LineLockEligible(reg, req, ix), prio, 0) else -1;
    seq(n + 1, i requires 0 <= i < n + 1 => if i == n then BusLineLock(reg, req, ix) else kept[i] || i == winner)
  }

  // At most one write port holds the lock, and never for the set the bus interface has locked.
  ghost predicate LineLockExclusive(g: Lines, ix: Indices)
    requires |g| == |ix.wp| + 1
  {
    && (forall i, j | 0 <= i < j < |ix.wp| :: !(g[i] && g[j]))
    && (g[|ix.wp|] ==> forall i | 0 <= i < |ix.wp| :: g[i] ==> ix.wp[i] != ix.bus)
  }

  // A grant goes to a requester, is kept while requested, and the lock stays exclusive if the indices of kept
  // grants have not changed.
  lemma LineLockSafe(reg: Lines, req: Lines, ix: Indices, prio: nat)
    requires |reg| == |req| == |ix.wp| + 1 && prio < |ix.wp|
    requires LineLockExclusive(Kept(reg, req), ix)
    ensures LineLockExclusive(LineLockGrants(reg, req, ix, prio), ix)
    ensures forall i | 0 <= i < |reg| :: LineLockGrants(reg, req, ix, prio)[i] ==> req[i]
    ensures forall i | 0 <= i < |reg| :: reg[i] && req[i] ==> LineLockGrants(reg, req, ix, prio)[i]
  {
    var n := |ix.wp|;
    var kept, g := Kept(reg, req)[..n], LineLockGrants(reg, req, ix, prio);
    assert forall i | 0 <= i < n :: kept[i] == (reg[i] && req[i]);
    if NoneSet(kept) {
      var w := First(LineLockEligible(reg, req, ix), prio, 0);
      assert forall i | 0 <= i < n :: g[i] == (i == w);
    } else {
      assert forall i | 0 <= i < n :: g[i] == kept[i];
    }
  }

  // The lock is never left idle: if a write port asks and none is granted, every asking port works on the set
  // that the bus interface has locked.
  lemma LineLockWorks(reg: Lines, req: Lines, ix: Indices, prio: nat, i: nat)
    requires |reg| == |req| == |ix.wp| + 1 && prio < |ix.wp|
    requires i < |ix.wp| && req[i]
    requires NoneSet(LineLockGrants(reg, req, ix, prio)[..|ix.wp|])
    ensures LineLockGrants(reg, req, ix, prio)[|ix.wp|] && ix.wp[i] == ix.bus
  {
    var n := |ix.wp|;
    var g, e := LineLockGrants(reg, req, ix, prio), LineLockEligible(reg, req, ix);
    var kept := Kept(reg, req)[..n];
    var w := First(e, prio, 0);
    var granted := w >= 0 && g[w];
    assert forall j | 0 <= j < n :: !g[..n][j] && g[..n][j] == g[j];
    forall j | 0 <= j < n
      ensures !kept[j]
    {
      assert !g[j];
    }
    FirstFindsAny(e, prio);
    assert !granted;
    assert w < 0 ==> !e[i];
  }

  // ---------- Ports of a CPU ----------
  // Data read port c is line c, instruction read port c is line n + c, write port c is line 2n + c and the bus
  // interface is line 3n. The bus interface shares the tag RAM port of the last CPU.

  function CpuOf(i: nat, n: nat): (c: nat)
    requires i <= 3 * n && n > 0
    ensures c < n
  {
    if i < n then i else if i < 2 * n then i - n else if i < 3 * n then i - 2 * n else n - 1
  }

  // The line of CPU 'c' to be served first: data read, instruction read, write; -1 if it requests nothing.
  function CpuChoice(req: Lines, c: nat, n: nat): (w: int)
    requires |req| >= 3 * n && c < n
    ensures w == -1 || (0 <= w < 3 * n && req[w] && CpuOf(w, n) == c)
    ensures w == -1 <==> !req[c] && !req[n + c] && !req[2 * n + c]
  {
    if req[c] then c else if req[n + c] then n + c else if req[2 * n + c] then 2 * n + c else -1
  }

  // ---------- Tag RAM: a reader/writer lock with one reader per RAM port ----------

  predicate PortTaken(kept: Lines, c: nat, n: nat)
    requires |kept| == 3 * n + 1 && c < n
  {
    kept[c] || kept[n + c] || kept[2 * n + c] || (c == n - 1 && kept[3 * n])
  }

  // The reader that a free port of CPU 'c' is given to.
  function NewReader(req: Lines, c: nat, n: nat): int
    requires |req| == 3 * n + 1 && c < n
  {
    if c == n - 1 && req[3 * n] then 3 * n else CpuChoice(req, c, n)
  }

  function TagReadGrants(reg: Lines, req: Lines, reqW: Lines, n: nat): (g: Lines)
    requires n > 0 && |reg| == |req| == 3 * n + 1 && |reqW| == n + 1
    ensures |g| == 3 * n + 1
  {
    var kept := Kept(reg, req);
    seq(3 * n + 1, i requires 0 <= i < 3 * n + 1 =>
      kept[i] || (NoneSet(reqW) && !PortTaken(kept, CpuOf(i, n), n) && NewReader(req, CpuOf(i, n), n) == i))
  }

  function TagWriteGrants(reg: Lines, req: Lines, gntR: Lines, n: nat, prio: nat): (g: Lines)
    requires |reg| == |req| == n + 1 && prio < n
    ensures |g| == n + 1
  {
    var kept := Kept(reg, req);
    var winner := if !NoneSet(gntR) || !NoneSet(kept) then -1 else if req[n] then n else First(req[..n], prio, 0);
    seq(n + 1, i requires 0 <= i < n + 1 => kept[i] || i == winner)
  }

  // The write lock has one owner and excludes all readers; each RAM port has one reader.
  ghost predicate TagLockExclusive(gntR: Lines, gntW: Lines, n: nat)
    requires n > 0 && |gntR| == 3 * n + 1 && |gntW| == n + 1
  {
    && (forall i, j | 0 <= i < j <= n :: !(gntW[i] && gntW[j]))
    && (forall i, j | 0 <= i <= n && 0 <= j <= 3 * n :: !(gntW[i] && gntR[j]))
    && (forall i, j | 0 <= i < j <= 3 * n && CpuOf(i, n) == CpuOf(j, n) :: !(gntR[i] && gntR[j]))
  }

  lemma KeptExclusive(regR: Lines, regW: Lines, reqR: Lines, reqW: Lines, n: nat)
    requires n > 0 && |regR| == |reqR| == 3 * n + 1 && |regW| == |reqW| == n + 1
    requires TagLockExclusive(regR, regW, n)
    ensures TagLockExclusive(Kept(regR, reqR), Kept(regW, reqW), n)
  {}

  lemma NewReaderIsOfCpu(req: Lines, c: nat, n: nat)
    requires |req| == 3 * n + 1 && c < n
    ensures var w := NewReader(req, c, n); w == -1 || (0 <= w <= 3 * n && req[w] && CpuOf(w, n) == c)
  {}

  lemma OneReaderPerPort(reg: Lines, req: Lines, reqW: Lines, n: nat, i: nat, j: nat)
    requires n > 0 && |reg| == |req| == 3 * n + 1 && |reqW| == n + 1 && i < j <= 3 * n && CpuOf(i, n) == CpuOf(j, n)
    requires !(Kept(reg, req)[i] && Kept(reg, req)[j])
    ensures !(TagReadGrants(reg, req, reqW, n)[i] && TagReadGrants(reg, req, reqW, n)[j])
  {
    var kept := Kept(reg, req);
    assert kept[i] ==> PortTaken(kept, CpuOf(i, n), n);
    assert kept[j] ==> PortTaken(kept, CpuOf(i, n), n);
  }

  // No new reader while anyone asks to write, no new writer while anyone reads or writes.
  lemma TagReadersSafe(regR: Lines, regW: Lines, reqR: Lines, reqW: Lines, n: nat)
    requires n > 0 && |regR| == |reqR| == 3 * n + 1 && |regW| == |reqW| == n + 1
    requires TagLockExclusive(regR, regW, n)
    ensures TagLockExclusive(TagReadGrants(regR, reqR, reqW, n), Kept(regW, reqW), n)
    ensures forall i | 0 <= i <= 3 * n :: TagReadGrants(regR, reqR, reqW, n)[i] ==> reqR[i]
    ensures forall i | 0 <= i <= 3 * n :: regR[i] && reqR[i] ==> TagReadGrants(regR, reqR, reqW, n)[i]
  {
    KeptExclusive(regR, regW, reqR, reqW, n);
    var kept, g := Kept(regR, reqR), TagReadGrants(regR, reqR, reqW, n);
    forall i, j | 0 <= i < j <= 3 * n && CpuOf(i, n) == CpuOf(j, n)
      ensures !(g[i] && g[j])
    {
      OneReaderPerPort(regR, reqR, reqW, n, i, j);
    }
    forall i | 0 <= i <= 3 * n
      ensures g[i] ==> reqR[i]
      ensures !NoneSet(reqW) ==> g[i] == kept[i]
    {
      NewReaderIsOfCpu(reqR, CpuOf(i, n), n);
    }
  }

  lemma TagWritersSafe(gntR: Lines, regW: Lines, reqW: Lines, n: nat, prio: nat)
    requires n > 0 && |gntR| == 3 * n + 1 && |regW| == |reqW| == n + 1 && prio < n
    requires TagLockExclusive(gntR, Kept(regW, reqW), n)
    ensures TagLockExclusive(gntR, TagWriteGrants(regW, reqW, gntR, n, prio), n)
    ensures forall i | 0 <= i <= n :: TagWriteGrants(regW, reqW, gntR, n, prio)[i] ==> reqW[i]
    ensures forall i | 0 <= i <= n :: regW[i] && reqW[i] ==> TagWriteGrants(regW, reqW, gntR, n, prio)[i]
  {
    var kept, g := Kept(regW, reqW), TagWriteGrants(regW, reqW, gntR, n, prio);
    if NoneSet(gntR) && NoneSet(kept) {
      var w := if reqW[n] then n else First(reqW[..n], prio, 0);
      assert forall i | 0 <= i <= n :: g[i] == (i == w);
      assert w >= 0 ==> reqW[w];
    } else {
      assert forall i | 0 <= i <= n :: g[i] == kept[i];
    }
  }

  // A tag RAM port that is asked for is never left without a reader while nobody asks to write ...
  lemma TagReadersWork(reg: Lines, req: Lines, reqW: Lines, n: nat, i: nat) returns (j: nat)
    requires n > 0 && |reg| == |req| == 3 * n + 1 && |reqW| == n + 1 && i <= 3 * n && req[i] && NoneSet(reqW)
    ensures j <= 3 * n && CpuOf(j, n) == CpuOf(i, n) && TagReadGrants(reg, req, reqW, n)[j]
  {
    var kept, c := Kept(reg, req), CpuOf(i, n);
    j := if kept[c] then c else if kept[n + c] then n + c else if kept[2 * n + c] then 2 * n + c
         else if c == n - 1 && kept[3 * n] then 3 * n
         else if c == n - 1 && req[3 * n] then 3 * n
         else if req[c] then c else if req[n + c] then n + c else 2 * n + c;
  }

  // ... and the tags are never left without a writer while someone asks to write them and nobody reads.
  lemma TagWritersWork(reg: Lines, req: Lines, gntR: Lines, n: nat, prio: nat, i: nat) returns (j: nat)
    requires |reg| == |req| == n + 1 && prio < n && i <= n && req[i] && NoneSet(gntR)
    ensures j <= n && TagWriteGrants(reg, req, gntR, n, prio)[j]
  {
    var kept := Kept(reg, req);
    FirstFindsAny(req[..n], prio);
    if k :| 0 <= k <= n && kept[k] {
      j := k;
    } else if req[n] {
      j := n;
    } else {
      assert req[..n][i];
      j := First(req[..n], prio, 0);
    }
  }

  // ---------- Bus interface: one owner among the 3n ports ----------

  function BusIfEligible(req: Lines, n: nat): (e: Lines)
    requires |req| == 3 * n
    ensures |e| == n
  {
    seq(n, c requires 0 <= c < n => CpuChoice(req, c, n) >= 0)
  }

  function BusIfGrants(reg: Lines, req: Lines, n: nat, prio: nat): (g: Lines)
    requires n > 0 && |reg| == |req| == 3 * n && prio < n
    ensures |g| == 3 * n
  {
    var kept := Kept(reg, req);
    var c := First(BusIfEligible(req, n), prio, 0);
    var winner := if NoneSet(kept) && c >= 0 then CpuChoice(req, c, n) else -1;
    seq(3 * n, i requires 0 <= i < 3 * n => kept[i] || i == winner)
  }

  ghost predicate OneHot(g: Lines) {
    forall i, j | 0 <= i < j < |g| :: !(g[i] && g[j])
  }

  lemma BusIfSafe(reg: Lines, req: Lines, n: nat, prio: nat)
    requires n > 0 && |reg| == |req| == 3 * n && prio < n && OneHot(reg)
    ensures OneHot(BusIfGrants(reg, req, n, prio))
    ensures forall i | 0 <= i < 3 * n :: BusIfGrants(reg, req, n, prio)[i] ==> req[i]
    ensures forall i | 0 <= i < 3 * n :: reg[i] && req[i] ==> BusIfGrants(reg, req, n, prio)[i]
  {
    var kept, g := Kept(reg, req), BusIfGrants(reg, req, n, prio);
    var c := First(BusIfEligible(req, n), prio, 0);
    if NoneSet(kept) && c >= 0 {
      assert forall i | 0 <= i < 3 * n :: g[i] == (i == CpuChoice(req, c, n));
    } else {
      assert forall i | 0 <= i < 3 * n :: g[i] == kept[i];
    }
  }

  // The bus interface is never left idle while some port asks for it.
  lemma BusIfWorks(reg: Lines, req: Lines, n: nat, prio: nat)
    requires n > 0 && |reg| == |req| == 3 * n && prio < n
    ensures NoneSet(BusIfGrants(reg, req, n, prio)) <==> NoneSet(req)
  {
    var kept, g, e := Kept(reg, req), BusIfGrants(reg, req, n, prio), BusIfEligible(req, n);
    var c := First(e, prio, 0);
    FirstFindsAny(e, prio);
    if !NoneSet(req) {
      var i :| 0 <= i < 3 * n && req[i];
      assert e[CpuOf(i, n)];
      if NoneSet(kept) {
        assert g[CpuChoice(req, c, n)];
      } else {
        var j :| 0 <= j < 3 * n && kept[j];
        assert g[j];
      }
    } else {
      assert forall i | 0 <= i < n :: !e[i];
    }
  }

  // ---------- A sole requester is granted at once ----------

  // No line but 'k' is set.
  ghost predicate OnlyLine(v: Lines, k: nat) {
    forall j | 0 <= j < |v| && j != k :: !v[j]
  }

  lemma SoleLineLock(reg: Lines, req: Lines, ix: Indices, prio: nat, k: nat)
    requires |reg| == |req| == |ix.wp| + 1 && prio < |ix.wp| && k <= |ix.wp| && OnlyLine(req, k)
    ensures LineLockGrants(reg, req, ix, prio) == req
  {
    var n, e := |ix.wp|, LineLockEligible(reg, req, ix);
    var kept, g := Kept(reg, req)[..n], LineLockGrants(reg, req, ix, prio);
    FirstFindsAny(e, prio);
    assert k < n ==> e[k] == req[k];
    assert forall j | 0 <= j < n :: kept[j] ==> req[j] && j == k;
    assert g[k] == req[k];
  }

  lemma SoleTagReader(reg: Lines, req: Lines, reqW: Lines, n: nat, k: nat)
    requires n > 0 && |reg| == |req| == 3 * n + 1 && |reqW| == n + 1 && k <= 3 * n && OnlyLine(req, k)
    requires req[k] ==> NoneSet(reqW)
    ensures TagReadGrants(reg, req, reqW, n) == req
  {
    var kept, g := Kept(reg, req), TagReadGrants(reg, req, reqW, n);
    forall i | 0 <= i <= 3 * n
      ensures g[i] == req[i]
    {
      NewReaderIsOfCpu(req, CpuOf(i, n), n);
    }
  }

  lemma SoleTagWriter(reg: Lines, req: Lines, gntR: Lines, n: nat, prio: nat, k: nat)
    requires |reg| == |req| == n + 1 && prio < n && k <= n && OnlyLine(req, k)
    requires req[k] ==> NoneSet(gntR)
    ensures TagWriteGrants(reg, req, gntR, n, prio) == req
  {
    var kept, g := Kept(reg, req), TagWriteGrants(reg, req, gntR, n, prio);
    FirstFindsAny(req[..n], prio);
    assert k < n ==> req[..n][k] == req[k];
    assert forall i | 0 <= i <= n :: g[i] == req[i];
  }

  lemma SoleBusifUser(reg: Lines, req: Lines, n: nat, prio: nat, k: nat)
    requires n > 0 && |reg| == |req| == 3 * n && prio < n && k < 3 * n && OnlyLine(req, k)
    ensures BusIfGrants(reg, req, n, prio) == req
  {
    var kept, g, e := Kept(reg, req), BusIfGrants(reg, req, n, prio), BusIfEligible(req, n);
    FirstFindsAny(e, prio);
    assert e[CpuOf(k, n)] == req[k];
    assert forall i | 0 <= i < 3 * n :: g[i] == req[i];
  }
}
