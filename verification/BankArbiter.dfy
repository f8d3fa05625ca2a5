// The grants for one cache bank (sysc/memu.cpp, BankMethod). A bank RAM has two ports; all ports of CPU c share
// RAM port c % 2 and the bus interface uses the last one. Several ports may be granted one RAM port together as
// long as they ask for the same way and index.

module BankArbiter {
  import opened ArbiterSpec

  const BR_PORTS := 2

  function RamPort(i: nat, n: nat): (p: nat)
    requires i <= 3 * n && n > 0
    ensures p < BR_PORTS
  {
    if i == 3 * n then BR_PORTS - 1 else CpuOf(i, n) % BR_PORTS
  }

  predicate IsWriter(i: nat, n: nat) {
    2 * n <= i <= 3 * n
  }

  // The last kept grant of RAM port 'p' among the lines below 'k', or -1.
  function LastKept(kept: Lines, n: nat, p: nat, k: nat): (w: int)
    requires n > 0 && |kept| == 3 * n + 1 && k <= 3 * n + 1
    ensures -1 <= w < k && (w >= 0 ==> kept[w] && RamPort(w, n) == p)
    ensures forall i | w < i < k :: !(kept[i] && RamPort(i, n) == p)
  {
    if k == 0 then -1
    else if kept[k - 1] && RamPort(k - 1, n) == p then k - 1
    else LastKept(kept, n, p, k - 1)
  }

  // The choice of the first CPU of RAM port 'p' that requests anything, from the 'k'-th in priority order.
  function FirstChoice(req: Lines, n: nat, prio: nat, p: nat, k: nat): (w: int)
    requires |req| == 3 * n + 1 && prio < n && k <= n
    ensures w == -1 || (0 <= w < 3 * n && req[w] && RamPort(w, n) == p)
    decreases n - k
  {
    if k == n then -1
    else
      var c := Rotated(k, prio, n);
      if c % BR_PORTS == p && CpuChoice(req, c, n) >= 0 then CpuChoice(req, c, n)
      else FirstChoice(req, n, prio, p, k + 1)
  }

  // The line whose address is driven to RAM port 'p': a kept grant, the bus interface, or a CPU's choice.
  function Selected(reg: Lines, req: Lines, n: nat, prio: nat, p: nat): (w: int)
    requires n > 0 && |reg| == |req| == 3 * n + 1 && prio < n && p < BR_PORTS
    ensures w == -1 || (0 <= w <= 3 * n && req[w] && RamPort(w, n) == p)
  {
    var s := LastKept(Kept(reg, req), n, p, 3 * n + 1);
    if s >= 0 then s
    else if p == BR_PORTS - 1 && req[3 * n] then 3 * n
    else FirstChoice(req, n, prio, p, 0)
  }

  // All requests that agree with the selected address.
  function Matching(reg: Lines, req: Lines, wiadr: seq<nat>, n: nat, prio: nat): (g: Lines)
    requires n > 0 && |reg| == |req| == |wiadr| == 3 * n + 1 && prio < n
    ensures |g| == 3 * n + 1
  {
    seq(3 * n + 1, i requires 0 <= i < 3 * n + 1 =>
      var s := Selected(reg, req, n, prio, RamPort(i, n));
      (reg[i] && req[i]) || (s >= 0 && req[i] && wiadr[i] == wiadr[s]))
  }

  // The last matching write port of RAM port 'p' among the first 'k' in priority order, else 'sel'.
  function LastWriter(g: Lines, n: nat, prio: nat, p: nat, sel: int, k: nat): (w: int)
    requires |g| == 3 * n + 1 && prio < n && k <= n
    ensures w == sel || (2 * n <= w < 3 * n && g[w] && RamPort(w, n) == p)
    ensures forall j | 0 <= j < k :: Rotated(j, prio, n) % BR_PORTS == p && g[2 * n + Rotated(j, prio, n)] ==>
      2 * n <= w < 3 * n && g[w] && RamPort(w, n) == p
  {
    if k == 0 then sel
    else
      var c := Rotated(k - 1, prio, n);
      if c % BR_PORTS == p && g[2 * n + c] then 2 * n + c else LastWriter(g, n, prio, p, sel, k - 1)
  }

  // The one line of RAM port 'p' that may write, if a writer is granted at all.
  function Writer(reg: Lines, req: Lines, wiadr: seq<nat>, n: nat, prio: nat, p: nat): int
    requires n > 0 && |reg| == |req| == |wiadr| == 3 * n + 1 && prio < n && p < BR_PORTS
  {
    var s := Selected(reg, req, n, prio, p);
    if s == 3 * n then s else LastWriter(Matching(reg, req, wiadr, n, prio), n, prio, p, s, n)
  }

  function BankGrants(reg: Lines, req: Lines, wiadr: seq<nat>, n: nat, prio: nat): (g: Lines)
    requires n > 0 && |reg| == |req| == |wiadr| == 3 * n + 1 && prio < n
    ensures |g| == 3 * n + 1
  {
    var m := Matching(reg, req, wiadr, n, prio);
    seq(3 * n + 1, i requires 0 <= i < 3 * n + 1 =>
      m[i] && (IsWriter(i, n) ==> Writer(reg, req, wiadr, n, prio, RamPort(i, n)) == i))
  }

  // The grants of a RAM port agree on one address, and only one of them may write.
  ghost predicate BankConsistent(g: Lines, wiadr: seq<nat>, n: nat)
    requires n > 0 && |g| == |wiadr| == 3 * n + 1
  {
    && (forall i, j | 0 <= i < j <= 3 * n && RamPort(i, n) == RamPort(j, n) :: g[i] && g[j] ==> wiadr[i] == wiadr[j])
    && (forall i, j | 2 * n <= i < j <= 3 * n && RamPort(i, n) == RamPort(j, n) :: !(g[i] && g[j]))
  }

  lemma BankAddressDriven(reg: Lines, req: Lines, wiadr: seq<nat>, n: nat, prio: nat, i: nat)
    requires n > 0 && |reg| == |req| == |wiadr| == 3 * n + 1 && prio < n && i <= 3 * n
    requires BankConsistent(Kept(reg, req), wiadr, n)
    requires Matching(reg, req, wiadr, n, prio)[i]
    ensures var s := Selected(reg, req, n, prio, RamPort(i, n)); s >= 0 && wiadr[i] == wiadr[s]
    ensures req[i]
  {
    var kept := Kept(reg, req);
    var s := LastKept(kept, n, RamPort(i, n), 3 * n + 1);
    if reg[i] && req[i] {
      assert kept[i];
      assert s >= i && kept[s];
    }
  }

  // In every step all ports granted on a RAM port have exactly the address driven to it, at most one of its write
  // ports and the bus interface is granted, and only requests are granted.
  lemma BankSafe(reg: Lines, req: Lines, wiadr: seq<nat>, n: nat, prio: nat)
    requires n > 0 && |reg| == |req| == |wiadr| == 3 * n + 1 && prio < n
    requires BankConsistent(Kept(reg, req), wiadr, n)
    ensures BankConsistent(BankGrants(reg, req, wiadr, n, prio), wiadr, n)
    ensures forall i | 0 <= i <= 3 * n :: BankGrants(reg, req, wiadr, n, prio)[i] ==>
      req[i] && var s := Selected(reg, req, n, prio, RamPort(i, n)); s >= 0 && wiadr[i] == wiadr[s]
  {
    var g := BankGrants(reg, req, wiadr, n, prio);
    forall i | 0 <= i <= 3 * n && g[i]
      ensures req[i] && var s := Selected(reg, req, n, prio, RamPort(i, n)); s >= 0 && wiadr[i] == wiadr[s]
    {
      BankAddressDriven(reg, req, wiadr, n, prio, i);
    }
  }

  // ---------- Held grants ----------

  // The place of CPU 'c' in the priority order.
  function Rank(c: nat, prio: nat, n: nat): (k: nat)
    requires c < n && prio < n
    ensures k < n && Rotated(k, prio, n) == c
  {
    if c >= prio then c - prio else c + n - prio
  }

  // 'LastWriter' is the last matching write port of the RAM port in priority order.
  lemma {:induction false} LastWriterIsLast(m: Lines, n: nat, prio: nat, p: nat, sel: int, k: nat, c: nat)
    requires |m| == 3 * n + 1 && prio < n && k <= n && c < n && Rank(c, prio, n) < k && c % BR_PORTS == p
      && m[2 * n + c]
    requires forall j | 0 <= j < n && Rank(c, prio, n) < Rank(j, prio, n) < k && j % BR_PORTS == p :: !m[2 * n + j]
    ensures LastWriter(m, n, prio, p, sel, k) == 2 * n + c
  {
    if Rank(c, prio, n) < k - 1 {
      assert Rank(Rotated(k - 1, prio, n), prio, n) == k - 1;
      LastWriterIsLast(m, n, prio, p, sel, k - 1, c);
    }
  }

  lemma {:induction false} LastWriterAtLeast(m: Lines, n: nat, prio: nat, p: nat, sel: int, k: nat, c: nat)
    requires |m| == 3 * n + 1 && prio < n && k <= n && c < n && Rank(c, prio, n) < k && c % BR_PORTS == p
      && m[2 * n + c]
    ensures var w := LastWriter(m, n, prio, p, sel, k);
      2 * n <= w < 3 * n && Rank(w - 2 * n, prio, n) >= Rank(c, prio, n)
  {
    var d := Rotated(k - 1, prio, n);
    assert Rank(d, prio, n) == k - 1;
    if !(d % BR_PORTS == p && m[2 * n + d]) {
      LastWriterAtLeast(m, n, prio, p, sel, k - 1, c);
    }
  }

  // A held grant is the selected one of its RAM port if it is that of a writer.
  lemma HeldWriterSelected(reg: Lines, req: Lines, wiadr: seq<nat>, n: nat, prio: nat, i: nat)
    requires n > 0 && |reg| == |req| == |wiadr| == 3 * n + 1 && prio < n && 2 * n <= i <= 3 * n
    requires BankConsistent(Kept(reg, req), wiadr, n) && reg[i] && req[i]
    ensures Selected(reg, req, n, prio, RamPort(i, n)) == i && Matching(reg, req, wiadr, n, prio)[i]
    ensures forall j | 2 * n <= j < 3 * n && j != i && RamPort(j, n) == RamPort(i, n) ::
      Matching(reg, req, wiadr, n, prio)[j] <==> req[j] && wiadr[j] == wiadr[i]
  {
    var kept, p := Kept(reg, req), RamPort(i, n);
    assert kept[i];
    var s := LastKept(kept, n, p, 3 * n + 1);
    assert s >= i && kept[s];
    assert forall j | 2 * n <= j < 3 * n && j != i && RamPort(j, n) == p :: !kept[j];
  }

  // Write port 'j' asks for the address of write port 'c', on the same RAM port and later in priority order.
  predicate LaterWriterAsks(req: Lines, wiadr: seq<nat>, n: nat, prio: nat, c: nat, j: nat)
    requires |req| == |wiadr| == 3 * n + 1 && prio < n && c < n && j < n
  {
    && Rank(c, prio, n) < Rank(j, prio, n) && j % BR_PORTS == c % BR_PORTS
    && req[2 * n + j] && wiadr[2 * n + j] == wiadr[2 * n + c]
  }

  // What decides about a held write grant.
  lemma HeldWriteGrant(reg: Lines, req: Lines, wiadr: seq<nat>, n: nat, prio: nat, c: nat)
    requires n > 0 && |reg| == |req| == |wiadr| == 3 * n + 1 && prio < n && c < n
    requires BankConsistent(Kept(reg, req), wiadr, n) && reg[2 * n + c] && req[2 * n + c]
    ensures var m, i := Matching(reg, req, wiadr, n, prio), 2 * n + c;
      && m[i] && (BankGrants(reg, req, wiadr, n, prio)[i] <==> LastWriter(m, n, prio, c % BR_PORTS, i, n) == i)
  {
    HeldWriterSelected(reg, req, wiadr, n, prio, 2 * n + c);
    assert RamPort(2 * n + c, n) == c % BR_PORTS;
    hide Selected, Matching, LastKept, BankConsistent;
  }

  lemma OtherWriterMatches(reg: Lines, req: Lines, wiadr: seq<nat>, n: nat, prio: nat, c: nat, j: nat)
    requires n > 0 && |reg| == |req| == |wiadr| == 3 * n + 1 && prio < n && c < n && j < n && j != c
    requires BankConsistent(Kept(reg, req), wiadr, n) && reg[2 * n + c] && req[2 * n + c]
    requires j % BR_PORTS == c % BR_PORTS
    ensures Matching(reg, req, wiadr, n, prio)[2 * n + j] <==> req[2 * n + j] && wiadr[2 * n + j] == wiadr[2 * n + c]
  {
    HeldWriterSelected(reg, req, wiadr, n, prio, 2 * n + c);
    assert RamPort(2 * n + c, n) == RamPort(2 * n + j, n);
    hide Selected, Matching, LastKept, BankConsistent;
  }

  lemma LaterWriterWins(reg: Lines, req: Lines, wiadr: seq<nat>, n: nat, prio: nat, c: nat, j: nat)
    requires n > 0 && |reg| == |req| == |wiadr| == 3 * n + 1 && prio < n && c < n && j < n
    requires BankConsistent(Kept(reg, req), wiadr, n) && reg[2 * n + c] && req[2 * n + c]
    requires LaterWriterAsks(req, wiadr, n, prio, c, j)
    ensures !BankGrants(reg, req, wiadr, n, prio)[2 * n + c]
  {
    hide BankGrants, Matching, BankConsistent, LastWriter;
    HeldWriteGrant(reg, req, wiadr, n, prio, c);
    OtherWriterMatches(reg, req, wiadr, n, prio, c, j);
    LastWriterAtLeast(Matching(reg, req, wiadr, n, prio), n, prio, c % BR_PORTS, 2 * n + c, n, j);
  }

  lemma NoLaterMatch(reg: Lines, req: Lines, wiadr: seq<nat>, n: nat, prio: nat, c: nat, j: nat)
    requires n > 0 && |reg| == |req| == |wiadr| == 3 * n + 1 && prio < n && c < n && j < n
    requires BankConsistent(Kept(reg, req), wiadr, n) && reg[2 * n + c] && req[2 * n + c]
    requires !LaterWriterAsks(req, wiadr, n, prio, c, j)
    requires Rank(c, prio, n) < Rank(j, prio, n) && j % BR_PORTS == c % BR_PORTS
    ensures !Matching(reg, req, wiadr, n, prio)[2 * n + j]
  {
    hide Matching, BankConsistent;
    OtherWriterMatches(reg, req, wiadr, n, prio, c, j);
  }

  lemma LastWriterKeeps(reg: Lines, req: Lines, wiadr: seq<nat>, n: nat, prio: nat, c: nat)
    requires n > 0 && |reg| == |req| == |wiadr| == 3 * n + 1 && prio < n && c < n
    requires BankConsistent(Kept(reg, req), wiadr, n) && reg[2 * n + c] && req[2 * n + c]
    requires forall j | 0 <= j < n :: !LaterWriterAsks(req, wiadr, n, prio, c, j)
    ensures BankGrants(reg, req, wiadr, n, prio)[2 * n + c]
  {
    hide BankGrants, Matching, BankConsistent, LastWriter, LaterWriterAsks, Rank, Kept;
    var m := Matching(reg, req, wiadr, n, prio);
    forall j | 0 <= j < n && Rank(c, prio, n) < Rank(j, prio, n) && j % BR_PORTS == c % BR_PORTS
      ensures !m[2 * n + j]
    {
      NoLaterMatch(reg, req, wiadr, n, prio, c, j);
    }
    HeldWriteGrant(reg, req, wiadr, n, prio, c);
    LastWriterIsLast(m, n, prio, c % BR_PORTS, 2 * n + c, n, c);
  }

  // In one step the arbiter takes a held grant away from a write port exactly when another write port of the same RAM
  // port that comes later in priority order asks for the same address.
  lemma HeldWriteGrantIff(reg: Lines, req: Lines, wiadr: seq<nat>, n: nat, prio: nat, c: nat)
    requires n > 0 && |reg| == |req| == |wiadr| == 3 * n + 1 && prio < n && c < n
    requires BankConsistent(Kept(reg, req), wiadr, n) && reg[2 * n + c] && req[2 * n + c]
    ensures BankGrants(reg, req, wiadr, n, prio)[2 * n + c] <==>
      forall j | 0 <= j < n :: !LaterWriterAsks(req, wiadr, n, prio, c, j)
  {
    hide BankGrants, BankConsistent, LaterWriterAsks;
    if j :| 0 <= j < n && LaterWriterAsks(req, wiadr, n, prio, c, j) {
      LaterWriterWins(reg, req, wiadr, n, prio, c, j);
    } else {
      LastWriterKeeps(reg, req, wiadr, n, prio, c);
    }
  }

  lemma HeldReadGrantKept(reg: Lines, req: Lines, wiadr: seq<nat>, n: nat, prio: nat, i: nat)
    requires n > 0 && |reg| == |req| == |wiadr| == 3 * n + 1 && prio < n && i < 2 * n && reg[i] && req[i]
    ensures BankGrants(reg, req, wiadr, n, prio)[i]
  {
    hide Selected, Writer;
    assert Matching(reg, req, wiadr, n, prio)[i];
  }

  lemma HeldBusGrantKept(reg: Lines, req: Lines, wiadr: seq<nat>, n: nat, prio: nat)
    requires n > 0 && |reg| == |req| == |wiadr| == 3 * n + 1 && prio < n && reg[3 * n] && req[3 * n]
    requires BankConsistent(Kept(reg, req), wiadr, n)
    ensures BankGrants(reg, req, wiadr, n, prio)[3 * n]
  {
    HeldWriterSelected(reg, req, wiadr, n, prio, 3 * n);
    hide Selected, Matching, BankConsistent;
    assert Writer(reg, req, wiadr, n, prio, RamPort(3 * n, n)) == 3 * n;
  }

  lemma NoLaterWriter(req: Lines, wiadr: seq<nat>, n: nat, prio: nat, c: nat, j: nat)
    requires |req| == |wiadr| == 3 * n + 1 && prio < n && c < n && j < n
    requires n <= BR_PORTS || forall k | 2 * n <= k < 3 * n && k != 2 * n + c :: !req[k]
    ensures !LaterWriterAsks(req, wiadr, n, prio, c, j)
  {
    if n > BR_PORTS && j != c {
      assert !req[2 * n + j];
    }
  }

  lemma HeldWriteGrantKept(reg: Lines, req: Lines, wiadr: seq<nat>, n: nat, prio: nat, c: nat)
    requires n > 0 && |reg| == |req| == |wiadr| == 3 * n + 1 && prio < n && c < n && reg[2 * n + c] && req[2 * n + c]
    requires BankConsistent(Kept(reg, req), wiadr, n)
    requires n <= BR_PORTS || forall k | 2 * n <= k < 3 * n && k != 2 * n + c :: !req[k]
    ensures BankGrants(reg, req, wiadr, n, prio)[2 * n + c]
  {
    hide BankGrants, BankConsistent, LaterWriterAsks;
    forall j | 0 <= j < n
      ensures !LaterWriterAsks(req, wiadr, n, prio, c, j)
    {
      NoLaterWriter(req, wiadr, n, prio, c, j);
    }
    HeldWriteGrantIff(reg, req, wiadr, n, prio, c);
  }

  // So read grants and those of the bus interface are never revoked, and neither are write grants if each CPU has its
  // own RAM port or no other write port asks.
  lemma HeldGrantKept(reg: Lines, req: Lines, wiadr: seq<nat>, n: nat, prio: nat, i: nat)
    requires n > 0 && |reg| == |req| == |wiadr| == 3 * n + 1 && prio < n && i <= 3 * n
    requires BankConsistent(Kept(reg, req), wiadr, n)
    requires reg[i] && req[i]
    requires IsWriter(i, n) && i < 3 * n ==> n <= BR_PORTS || forall j | 2 * n <= j < 3 * n && j != i :: !req[j]
    ensures BankGrants(reg, req, wiadr, n, prio)[i]
  {
    hide BankGrants, BankConsistent;
    if i < 2 * n {
      HeldReadGrantKept(reg, req, wiadr, n, prio, i);
    } else if i < 3 * n {
      HeldWriteGrantKept(reg, req, wiadr, n, prio, i - 2 * n);
    } else {
      HeldBusGrantKept(reg, req, wiadr, n, prio);
    }
  }

  // With more CPUs than RAM ports there are requests for which it does happen: CPUs 0 and 2 ask for the same word, CPU
  // 0 holds the grant and CPU 2 comes later in priority order. The line lock keeps them away from the arbiter.
  lemma HeldWriteGrantRevoked(n: nat) returns (reg: Lines, req: Lines, wiadr: seq<nat>)
    requires n > BR_PORTS
    ensures |reg| == |req| == |wiadr| == 3 * n + 1
    ensures BankConsistent(Kept(reg, req), wiadr, n)
    ensures reg[2 * n] && req[2 * n] && !BankGrants(reg, req, wiadr, n, 0)[2 * n]
  {
    reg := seq(3 * n + 1, i => i == 2 * n);
    req := seq(3 * n + 1, i => i == 2 * n || i == 2 * n + 2);
    wiadr := seq(3 * n + 1, _ => 0);
    HeldWriteGrantIff(reg, req, wiadr, n, 0, 0);
    hide BankGrants;
    assert LaterWriterAsks(req, wiadr, n, 0, 0, 2);
  }

  // ---------- Who asks is served ----------

  lemma {:induction false} FirstChoiceFinds(req: Lines, n: nat, prio: nat, p: nat, k: nat, c: nat)
    requires |req| == 3 * n + 1 && prio < n && k <= n && c < n && k <= Rank(c, prio, n) && c % BR_PORTS == p
    requires CpuChoice(req, c, n) >= 0
    ensures FirstChoice(req, n, prio, p, k) >= 0
    decreases n - k
  {
    if Rank(c, prio, n) > k {
      FirstChoiceFinds(req, n, prio, p, k + 1, c);
    }
  }

  // A RAM port that is asked for is never left idle, and everyone who wants to read the word that it is given to is
  // served as well.
  lemma BankWorks(reg: Lines, req: Lines, wiadr: seq<nat>, n: nat, prio: nat, i: nat) returns (w: nat)
    requires n > 0 && |reg| == |req| == |wiadr| == 3 * n + 1 && prio < n && i <= 3 * n && req[i]
    requires BankConsistent(Kept(reg, req), wiadr, n)
    ensures var g := BankGrants(reg, req, wiadr, n, prio);
      && w <= 3 * n && RamPort(w, n) == RamPort(i, n) && g[w]
      && forall j | 0 <= j < 2 * n && RamPort(j, n) == RamPort(i, n) :: req[j] && wiadr[j] == wiadr[w] ==> g[j]
  {
    var p, m := RamPort(i, n), Matching(reg, req, wiadr, n, prio);
    if i < 3 * n {
      FirstChoiceFinds(req, n, prio, p, 0, CpuOf(i, n));
    }
    var s := Selected(reg, req, n, prio, p);
    hide Selected, FirstChoice;
    w := s;
    if 2 * n <= s < 3 * n {
      w := LastWriter(m, n, prio, p, s, n);
    }
    BankAddressDriven(reg, req, wiadr, n, prio, w);
  }

  // The address of the only line that asks is driven to its RAM port.
  lemma SoleSelected(reg: Lines, req: Lines, n: nat, prio: nat, k: nat)
    requires n > 0 && |reg| == |req| == 3 * n + 1 && prio < n && k <= 3 * n && OnlyLine(req, k) && req[k]
    ensures Selected(reg, req, n, prio, RamPort(k, n)) == k
  {
    if k < 3 * n {
      FirstChoiceFinds(req, n, prio, RamPort(k, n), 0, CpuOf(k, n));
    }
  }

  lemma SoleBankUser(reg: Lines, req: Lines, wiadr: seq<nat>, n: nat, prio: nat, k: nat)
    requires n > 0 && |reg| == |req| == |wiadr| == 3 * n + 1 && prio < n && k <= 3 * n && OnlyLine(req, k)
    ensures BankGrants(reg, req, wiadr, n, prio) == req
  {
    var m, g := Matching(reg, req, wiadr, n, prio), BankGrants(reg, req, wiadr, n, prio);
    if req[k] {
      SoleSelected(reg, req, n, prio, k);
    }
    hide Selected;
    forall i | 0 <= i <= 3 * n
      ensures m[i] == req[i]
      ensures g[i] == req[i]
    {}
  }
}
