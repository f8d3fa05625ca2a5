// What the past of a run guarantees: a valid link has not been interfered with, and an acknowledged write has been
// committed to the bank and the tag.

module MemuHistory {
  import opened Words
  import opened Address
  import opened WritePortSpec
  import opened ReadPortSpec
  import opened BusIfSpec
  import opened MemuSpec
  import opened MemuProofs
  import opened MemuBanks
  import opened MemuTags
  import opened MemuSafety
  import opened MemuSpecial

  // ---------- Load link and store conditional ----------

  // Some port other than 'p' is granted the line lock for address 'a' in cycle 'k'.
  ghost predicate OtherLocks(c: Config, tr: seq<State>, ins: seq<Inputs>, p: nat, k: nat, a: Adr)
    requires k < |ins| && |tr| == |ins| + 1 && Legal(c, tr[k], ins[k])
  {
    exists q :: 0 <= q < c.n && q != p && GrantsAt(c, tr, ins, k).linelock[q] && ins[k].wp[q].adr == a
  }

  // A snoop strobe reports every lock of another port.
  lemma SnoopCovers(c: Config, s: State, i: Inputs, g: Grants, p: nat, q: nat)
    requires Inv(c, s) && Granted(c, s, i, g) && p < c.n && q < c.n && q != p && g.linelock[q]
    ensures LockOwner(c, g.linelock) == q
  {
    hide Inv, BusifGranted, TagGranted, WorkIndices, GrantsKept;
    var w := LockOwner(c, g.linelock);
    assert w >= q;
  }

  lemma LinkKept(c: Config, s: State, i: Inputs, g: Grants, t: State, p: nat)
    requires Inv(c, s) && Granted(c, s, i, g) && Advances(c, s, i, g, t) && p < c.n
    requires t.wp[p].linkValid && !Links(s.wp[p], i.wp[p])
    ensures s.wp[p].linkValid && s.wp[p].linkAdr == t.wp[p].linkAdr
    ensures forall q | 0 <= q < c.n && q != p :: !(g.linelock[q] && i.wp[q].adr == t.wp[p].linkAdr)
  {
    hide Inv, Granted, NextState, Links, BusNext, RNextState, Offered, Ack, LockOwner, WpGrants, RpGrants, HasRequest;
    assert t.wp[p] == NextWp(c, s, i, g, p);
    forall q | 0 <= q < c.n && q != p && g.linelock[q]
      ensures i.wp[q].adr != t.wp[p].linkAdr
    {
      SnoopCovers(c, s, i, g, p, q);
    }
  }

  // Whenever a port has a valid link, its CPU linked that address in an earlier cycle 'l', and no other write port
  // has been granted the line lock for that address in any cycle since.
  lemma {:induction false} LinkSafety(c: Config, tr: seq<State>, ins: seq<Inputs>, k: nat, p: nat) returns (l: nat)
    requires Run(c, tr, ins) && k < |tr| && Sized(c, tr[k]) && p < c.n && tr[k].wp[p].linkValid
    ensures l < k && Legal(c, tr[l], ins[l])
    ensures Links(tr[l].wp[p], ins[l].wp[p]) && ins[l].wp[p].adr == tr[k].wp[p].linkAdr
    ensures forall j | l < j < k :: Legal(c, tr[j], ins[j]) && !OtherLocks(c, tr, ins, p, j, tr[k].wp[p].linkAdr)
  {
    hide Inv, Granted, GrantsOf, Step, Links, Initial, NextState, BusNext, RNextState, Offered, Ack, WpGrants;
    hide RpGrants, HasRequest;
    if k == 0 {
      InitialUnlinked(c, tr[0], p);
      assert false;
    } else {
      RunCycle(c, tr, ins, k - 1);
      var s, i, g := tr[k - 1], ins[k - 1], GrantsAt(c, tr, ins, k - 1);
      if Links(s.wp[p], i.wp[p]) {
        l := k - 1;
        LinkTaken(c, s, i, g, tr[k - 1 + 1], p);
      } else {
        LinkKept(c, s, i, g, tr[k - 1 + 1], p);
        l := LinkSafety(c, tr, ins, k - 1, p);
      }
    }
  }

  lemma InitialUnlinked(c: Config, s: State, p: nat)
    requires Initial(c, s) && p < c.n
    ensures !s.wp[p].linkValid
  {}

  lemma LinkTaken(c: Config, s: State, i: Inputs, g: Grants, t: State, p: nat)
    requires Advances(c, s, i, g, t) && p < c.n && Links(s.wp[p], i.wp[p])
    ensures t.wp[p].linkAdr == i.wp[p].adr
  {
    hide NextState, Links, BusNext, RNextState, Offered, Ack, LockOwner, WpGrants, RpGrants, HasRequest;
    assert t.wp[p] == NextWp(c, s, i, g, p);
  }

  // Some port other than 'p' writes the word at 'a' to its bank in cycle 'k': a bank write of that port is granted.
  ghost predicate OtherWrites(c: Config, tr: seq<State>, ins: seq<Inputs>, p: nat, k: nat, a: Adr)
    requires k < |ins| && |tr| == |ins| + 1 && Legal(c, tr[k], ins[k])
  {
    exists q :: 0 <= q < c.n && q != p && ins[k].wp[q].adr == a &&
      Occurs(BankWritten, tr[k].wp[q], ins[k].wp[q], WpGrants(c, ins[k], GrantsAt(c, tr, ins, k), q))
  }

  // So a write port that reports success for the address of its CPU was linked to it in some cycle 'l', and no other
  // port has been working on that address from the second cycle after 'l' up to now.
  lemma WcondOkSeesNoWriter(c: Config, tr: seq<State>, ins: seq<Inputs>, k: nat, p: nat) returns (l: nat)
    requires Run(c, tr, ins) && k < |ins| && Legal(c, tr[k], ins[k]) && p < c.n && WcondOk(tr[k].wp[p], ins[k].wp[p])
    ensures l < k && Legal(c, tr[l], ins[l])
    ensures Links(tr[l].wp[p], ins[l].wp[p]) && ins[l].wp[p].adr == ins[k].wp[p].adr
    ensures forall j, q | l + 1 < j <= k && 0 <= q < c.n && q != p ::
      Legal(c, tr[j], ins[j]) && !(Critical(tr[j].wp[q].state) && ins[j].wp[q].adr == ins[k].wp[p].adr)
    // if no other port has been granted the lock for the address in the cycle of the link, this holds without a gap
    ensures !OtherLocks(c, tr, ins, p, l, ins[k].wp[p].adr) ==> forall j, q | l < j <= k && 0 <= q < c.n && q != p ::
      Legal(c, tr[j], ins[j]) && !(Critical(tr[j].wp[q].state) && ins[j].wp[q].adr == ins[k].wp[p].adr)
  {
    hide Inv, Granted, GrantsOf, Step, Links, Initial, Critical, Advances;
    l := LinkSafety(c, tr, ins, k, p);
    var a := ins[k].wp[p].adr;
    forall j, q | l < j <= k && 0 <= q < c.n && q != p && (j == l + 1 ==> !OtherLocks(c, tr, ins, p, l, a))
      ensures Legal(c, tr[j], ins[j])
      ensures !(Critical(tr[j].wp[q].state) && ins[j].wp[q].adr == a)
    {
      CriticalWasLocked(c, tr, ins, j, p, q, a);
      assert j == l + 1 || l < j - 1 < k;
    }
  }

  // Exactly when the link does not protect the word: a reported success hides a write by another port if and only if
  // that port writes in the cycle right after the link, and then it was granted the line lock in the cycle of the link.
  lemma WcondOkHidesWriteIff(c: Config, tr: seq<State>, ins: seq<Inputs>, k: nat, p: nat) returns (l: nat)
    requires Run(c, tr, ins) && k < |ins| && Legal(c, tr[k], ins[k]) && p < c.n && WcondOk(tr[k].wp[p], ins[k].wp[p])
    ensures l < k && Legal(c, tr[l], ins[l]) && Legal(c, tr[l + 1], ins[l + 1])
    ensures Links(tr[l].wp[p], ins[l].wp[p]) && ins[l].wp[p].adr == ins[k].wp[p].adr
    ensures (exists j :: l < j <= k && Legal(c, tr[j], ins[j]) && OtherWrites(c, tr, ins, p, j, ins[k].wp[p].adr)) <==>
      OtherWrites(c, tr, ins, p, l + 1, ins[k].wp[p].adr)
    ensures OtherWrites(c, tr, ins, p, l + 1, ins[k].wp[p].adr) ==> OtherLocks(c, tr, ins, p, l, ins[k].wp[p].adr)
  {
    hide Inv, Granted, GrantsOf, Step, Links, Initial, Critical, Advances, Occurs;
    l := WcondOkSeesNoWriter(c, tr, ins, k, p);
    var a := ins[k].wp[p].adr;
    RunCycle(c, tr, ins, l + 1);
    forall j | l < j <= k && Legal(c, tr[j], ins[j]) && OtherWrites(c, tr, ins, p, j, a)
      ensures j == l + 1 && OtherLocks(c, tr, ins, p, l, a)
    {
      var q :| 0 <= q < c.n && q != p && ins[j].wp[q].adr == a &&
        Occurs(BankWritten, tr[j].wp[q], ins[j].wp[q], WpGrants(c, ins[j], GrantsAt(c, tr, ins, j), q));
      WriterIsCritical(tr[j].wp[q], WpGrants(c, ins[j], GrantsAt(c, tr, ins, j), q), ins[j].wp[q]);
    }
  }

  lemma WriterIsCritical(r: WpRegs, g: WpGnt, i: WpIn)
    requires Occurs(BankWritten, r, i, g)
    ensures Critical(r.state)
  {}

  lemma CriticalWasLocked(c: Config, tr: seq<State>, ins: seq<Inputs>, j: nat, p: nat, q: nat, a: Adr)
    requires Run(c, tr, ins) && 0 < j < |ins| && Legal(c, tr[j - 1], ins[j - 1]) && p < c.n && q < c.n && q != p
    ensures Legal(c, tr[j], ins[j])
    ensures Critical(tr[j].wp[q].state) && ins[j].wp[q].adr == a ==> OtherLocks(c, tr, ins, p, j - 1, a)
  {
    hide Granted, GrantsOf, Step, Initial, Critical, NextWp, BusifOk, BusOk, SpecialOk, LockOk, TagOk, PendingOk;
    hide BanksOk, BusNext, RNextState, Offered, Ack, WpGrants, RpGrants, HasRequest, WayIndices;
    RunCycle(c, tr, ins, j - 1);
    RunCycle(c, tr, ins, j);
    assert tr[j - 1 + 1] == tr[j];
    if Critical(tr[j].wp[q].state) && ins[j].wp[q].adr == a {
      CriticalIsPending(c, tr[j], ins[j], q);
      assert GrantsAt(c, tr, ins, j - 1).linelock[q] && ins[j - 1].wp[q].adr == a;
    }
  }

  // ---------- Commit before acknowledge ----------

  datatype Event = BankWritten | TagWritten | DirtyHit

  // What a write port does in one cycle: a granted bank write, a granted tag write, or it finds its line dirty.
  predicate Occurs(e: Event, r: WpRegs, i: WpIn, g: WpGnt) {
    match e
    case BankWritten => BankWr(r, g) && g.bank
    case TagWritten => TagWr(r, g) && g.tagw
    case DirtyHit => (r.state.ReadTag? || r.state.RecheckReadTag?) && i.tag.valid && i.tag.dirty
  }

  // 'e' has occurred at write port 'p' for address 'a' before cycle 'k', since the port last was in its initial state.
  ghost predicate Occurred(e: Event, c: Config, tr: seq<State>, ins: seq<Inputs>, p: nat, k: nat, a: Adr)
    requires Run(c, tr, ins) && k < |tr| && p < c.n
    decreases k
  {
    && k > 0 && |tr[k].wp| == c.n && tr[k].wp[p].state != Init
    && (Occurred(e, c, tr, ins, p, k - 1, a) ||
        (Legal(c, tr[k - 1], ins[k - 1]) && ins[k - 1].wp[p].adr == a &&
         Occurs(e, tr[k - 1].wp[p], ins[k - 1].wp[p], WpGrants(c, ins[k - 1], GrantsAt(c, tr, ins, k - 1), p))))
  }

  // What a port must have done to be in its state: 'b', 't' and 'd' tell which events have occurred.
  predicate HistoryOk(r: WpRegs, b: bool, t: bool, d: bool) {
    && (r.state.WriteTag1? || r.state.WriteTag2? ==> b)
    && (r.state.WriteTag2AndBank? || r.state.WriteTag2? ==> t)
    && (r.state.WriteBank? ==> t || d)
    && ((r.state.HaveTagRequestBank? || r.state.ReadBank?) && r.tag.dirty ==> d)
  }

  // How a port gets into the states in which something must have happened.
  lemma CommitStates(r: WpRegs, i: WpIn, g: WpGnt)
    ensures var n := NextState(r, i, g);
      && (n.WriteTag1? ==> r.state.WriteTag1? || (r.state.WriteTag1AndBank? && g.bank))
      && (n.WriteTag2? ==> g.tagw && (r.state.WriteTag1? || (r.state.WriteTag1AndBank? && g.bank)))
      && (n.WriteTag2AndBank? ==> r.state.WriteTag1AndBank? && g.tagw)
  {}

  lemma DirtyStates(r: WpRegs, i: WpIn, g: WpGnt)
    ensures var n := NextState(r, i, g);
      && (n.WriteBank? && !r.state.WriteBank? && !r.state.WriteTag2AndBank? && !(r.state.ReadBank? && r.tag.dirty) ==>
        (r.state.ReadTag? || r.state.RecheckReadTag?) && i.tag.valid && i.tag.dirty)
      && ((n.HaveTagRequestBank? || n.ReadBank?) && !r.state.HaveTagRequestBank? ==>
        (r.state.ReadTag? || r.state.RecheckReadTag?) && i.tag.valid)
  {}

  lemma PortHistory(r: WpRegs, i: WpIn, g: WpGnt, stb: bool, adr: Adr, b: bool, t: bool, d: bool)
    requires HistoryOk(r, b, t, d)
    ensures HistoryOk(NextRegs(r, i, g, stb, adr),
      b || Occurs(BankWritten, r, i, g), t || Occurs(TagWritten, r, i, g), d || Occurs(DirtyHit, r, i, g))
  {
    hide NextState;
    CommitStates(r, i, g);
    DirtyStates(r, i, g);
  }

  lemma {:induction false} StateTellsHistory(c: Config, tr: seq<State>, ins: seq<Inputs>, p: nat, k: nat, a: Adr)
    requires Run(c, tr, ins) && k < |ins| && p < c.n && Legal(c, tr[k], ins[k])
    requires tr[k].wp[p].state != Init ==> ins[k].wp[p].adr == a
    ensures HistoryOk(tr[k].wp[p], Occurred(BankWritten, c, tr, ins, p, k, a),
      Occurred(TagWritten, c, tr, ins, p, k, a),
      Occurred(DirtyHit, c, tr, ins, p, k, a))
  {
    hide Inv, Granted, GrantsOf, Step, Initial, NextRegs, BusNext, RNextState, Offered, Ack, WpGrants, RpGrants;
    hide Occurs, LockOwner;
    if k == 0 {
      InitialIdle(c, tr[0], p);
    } else {
      var s, i, g := tr[k - 1], ins[k - 1], GrantsAt(c, tr, ins, k - 1);
      RunCycle(c, tr, ins, k - 1);
      RunCycle(c, tr, ins, k);
      if tr[k].wp[p].state != Init {
        RequestKept(c, tr, ins, p, k);
        StateTellsHistory(c, tr, ins, p, k - 1, a);
        var w := LockOwner(c, g.linelock);
        PortHistory(s.wp[p], i.wp[p], WpGrants(c, i, g, p), w >= 0 && w != p, if w >= 0 then i.wp[w].adr else 0,
          Occurred(BankWritten, c, tr, ins, p, k - 1, a), Occurred(TagWritten, c, tr, ins, p, k - 1, a),
          Occurred(DirtyHit, c, tr, ins, p, k - 1, a));
        assert tr[k - 1 + 1].wp[p] == NextWp(c, s, i, g, p);
      }
    }
  }

  lemma InitialIdle(c: Config, s: State, p: nat)
    requires Initial(c, s) && p < c.n
    ensures s.wp[p].state == Init
  {}

  // A port that is not in its initial state works for the request of the cycle before.
  lemma RequestKept(c: Config, tr: seq<State>, ins: seq<Inputs>, p: nat, k: nat)
    requires Run(c, tr, ins) && 0 < k < |ins| && p < c.n && Sized(c, tr[k]) && tr[k].wp[p].state != Init
    ensures Legal(c, tr[k - 1], ins[k - 1]) && Legal(c, tr[k], ins[k]) && SameRequest(ins[k].wp[p], ins[k - 1].wp[p])
  {
    hide Granted, GrantsOf, Step, Initial, NextWp, BusNext, RNextState, Offered, Ack, WpGrants, RpGrants, HasRequest;
    hide BusifOk, BusOk, SpecialOk, LockOk, TagOk, BanksOk, WayIndices;
    RunCycle(c, tr, ins, k - 1);
    RunCycle(c, tr, ins, k);
    assert tr[k - 1 + 1] == tr[k];
    assert tr[k].pending[p];
    assert SameRequest(ins[k].wp[p], tr[k].lastIn[p]);
  }

  // When a port acknowledges a cached write, the bank has been written for that address in this access, and the tag
  // was found dirty or has been written dirty.
  lemma AckMeansCommitted(c: Config, tr: seq<State>, ins: seq<Inputs>, k: nat, p: nat)
    requires Run(c, tr, ins) && k < |ins| && p < c.n && Legal(c, tr[k], ins[k])
    requires Critical(tr[k].wp[p].state)
    requires Ack(tr[k].wp[p], ins[k].wp[p], WpGrants(c, ins[k], GrantsAt(c, tr, ins, k), p))
    ensures var a, r, i, g := ins[k].wp[p].adr, tr[k].wp[p], ins[k].wp[p],
      WpGrants(c, ins[k], GrantsAt(c, tr, ins, k), p);
      && (Occurred(BankWritten, c, tr, ins, p, k, a) || Occurs(BankWritten, r, i, g))
      && (Occurred(DirtyHit, c, tr, ins, p, k, a) || Occurred(TagWritten, c, tr, ins, p, k, a))
  {
    hide Run, GrantsOf, WpGrants, Occurred, GrantsAt;
    StateTellsHistory(c, tr, ins, p, k, ins[k].wp[p].adr);
  }

  // ---------- The word that is written ----------

  // The tag is known and the old word has been read if it is needed.
  predicate Writes(s: WpState) {
    s.WriteTag1AndBank? || s.WriteTag2AndBank? || s.WriteTag1? || s.WriteTag2? || s.WriteBank?
  }

  lemma WriteStatesEntered(r: WpRegs, i: WpIn, g: WpGnt, stb: bool, adr: Adr)
    requires Writes(NextState(r, i, g))
    ensures Writes(r.state) || r.state.ReadBank? || i.FullWord()
    ensures var n := NextRegs(r, i, g, stb, adr);
      (Writes(r.state) ==> n.data == r.data && n.tag == r.tag)
        && (r.state.ReadBank? ==> n.data == i.bankData && n.tag == r.tag)
  {}

  // One cycle of such a port.
  lemma OldWordCycle(c: Config, tr: seq<State>, ins: seq<Inputs>, k: nat, p: nat)
    requires Run(c, tr, ins) && 0 < k < |ins| && p < c.n && Legal(c, tr[k], ins[k])
    requires Writes(tr[k].wp[p].state) && !ins[k].wp[p].FullWord()
    ensures Legal(c, tr[k - 1], ins[k - 1]) && SameRequest(ins[k].wp[p], ins[k - 1].wp[p])
    ensures var r, n := tr[k - 1].wp[p], tr[k].wp[p];
      && (Writes(r.state) || r.state.ReadBank?) && n.tag == r.tag
      && n.data == if Writes(r.state) then r.data else ins[k - 1].wp[p].bankData
  {
    hide Inv, Granted, GrantsOf, Step, Initial, NextRegs, BusNext, RNextState, Offered, Ack, WpGrants, RpGrants;
    hide LockOwner, NextState, Writes, WayIndices, HasRequest;
    InitDoesNotWrite(tr[k].wp[p].state);
    var s, i, g := tr[k - 1], ins[k - 1], GrantsAt(c, tr, ins, k - 1);
    RunCycle(c, tr, ins, k - 1);
    RequestKept(c, tr, ins, p, k);
    assert tr[k - 1 + 1].wp[p] == NextWp(c, s, i, g, p);
    var w := LockOwner(c, g.linelock);
    NextRegsState(s.wp[p], i.wp[p], WpGrants(c, i, g, p), w >= 0 && w != p, if w >= 0 then i.wp[w].adr else 0);
    WriteStatesEntered(s.wp[p], i.wp[p], WpGrants(c, i, g, p), w >= 0 && w != p, if w >= 0 then i.wp[w].adr else 0);
  }

  // A port that writes part of a word has read the old word in a cycle 'j' of the same access and still holds it.
  lemma {:induction false} OldWordHeld(c: Config, tr: seq<State>, ins: seq<Inputs>, k: nat, p: nat) returns (j: nat)
    requires Run(c, tr, ins) && k < |ins| && p < c.n && Legal(c, tr[k], ins[k])
    requires Writes(tr[k].wp[p].state) && !ins[k].wp[p].FullWord()
    ensures j < k && Legal(c, tr[j], ins[j]) && tr[j].wp[p].state.ReadBank? && SameRequest(ins[k].wp[p], ins[j].wp[p])
    ensures tr[k].wp[p].data == ins[j].wp[p].bankData && tr[k].wp[p].tag == tr[j].wp[p].tag
    ensures forall x | j < x <= k :: Legal(c, tr[x], ins[x]) && Writes(tr[x].wp[p].state)
  {
    hide GrantsOf, Step, Initial, WayIndices, Writes;
    if k == 0 {
      InitDoesNotWrite(tr[k].wp[p].state);
      InitialIdle(c, tr[0], p);
      assert false;
    } else {
      OldWordCycle(c, tr, ins, k, p);
      j := k - 1;
      if Writes(tr[k - 1].wp[p].state) {
        j := OldWordHeld(c, tr, ins, k - 1, p);
      }
    }
  }

  lemma InitDoesNotWrite(s: WpState)
    ensures Writes(s) ==> s != Init
  {}

  lemma NextRegsState(r: WpRegs, i: WpIn, g: WpGnt, stb: bool, adr: Adr)
    ensures NextRegs(r, i, g, stb, adr).state == NextState(r, i, g)
  {}

  // The word at the way and index of the port's tag that is written to the bank: the new word if all of it is new,
  // otherwise the word that was read there in a cycle 'j' of the same access with the selected bytes replaced.
  lemma BankWriteCombines(c: Config, tr: seq<State>, ins: seq<Inputs>, k: nat, p: nat) returns (j: nat)
    requires Run(c, tr, ins) && k < |ins| && p < c.n && Legal(c, tr[k], ins[k])
    requires Occurs(BankWritten, tr[k].wp[p], ins[k].wp[p], WpGrants(c, ins[k], GrantsAt(c, tr, ins, k), p))
    ensures var r, i := tr[k].wp[p], ins[k].wp[p];
      if i.FullWord() then BankDataOut(r, i) == i.data
      else
        && j < k && Legal(c, tr[j], ins[j]) && tr[j].wp[p].state.ReadBank? && SameRequest(i, ins[j].wp[p])
        && (forall x | j < x <= k :: Legal(c, tr[x], ins[x]) && Writes(tr[x].wp[p].state))
        && BankDataOut(r, i) == Overlay(ins[j].wp[p].bankData, i.data, i.bsel)
        && TagOut(r, i).way == TagOut(tr[j].wp[p], ins[j].wp[p]).way
  {
    hide Run, GrantsOf, WpGrants, GrantsAt, SameRequest;
    j := 0;
    if !ins[k].wp[p].FullWord() {
      j := OldWordHeld(c, tr, ins, k, p);
    }
  }

  // ---------- The tag that a write relies on ----------

  // The port has found its line in the cache and not finished its write.
  predicate InWrite(s: WpState) {
    s.HaveTagRequestBank? || s.ReadBank? || Writes(s)
  }

  predicate SamplesTag(s: WpState) {
    s.ReadTag? || s.RecheckReadTag?
  }

  lemma TagWriterIsCritical(r: WpRegs, g: WpGnt, b: BusRegs)
    ensures TagWr(r, g) ==> Critical(r.state)
    ensures BTagWr(b) ==> Working(b)
    ensures InWrite(r.state) || SamplesTag(r.state) ==>
      Critical(r.state) && !IsReplacing(r.state) && !IsSpecial(r.state) && r.state != Init
  {}

  // While a write port works on a line, other write ports write no tag, and the bus interface writes none of the set
  // unless it runs a special operation that was started without the lock.
  lemma OthersWriteNoTag(c: Config, tr: seq<State>, ins: seq<Inputs>, k: nat, p: nat, w: nat)
    requires Run(c, tr, ins) && k < |ins| && p < c.n && w <= c.n && w != p && Legal(c, tr[k], ins[k])
    requires InWrite(tr[k].wp[p].state) || SamplesTag(tr[k].wp[p].state)
    requires WritesTag(c, tr[k], ins[k], GrantsAt(c, tr, ins, k), w)
    ensures w == c.n && (c.geo.Index(tr[k].bus.adr) == c.geo.Index(ins[k].wp[p].adr) ==>
      exists q: nat, k0: nat :: RunsUnlocked(c, tr, ins, k, q, k0))
  {
    hide Inv, Initial, GrantsOf, Step, Granted, Advances, Critical, Working, IsReplacing, IsSpecial, InWrite;
    hide SamplesTag;
    hide TagWr, BTagWr, WpGrants, RunsUnlocked;
    var s, i, g := tr[k], ins[k], GrantsAt(c, tr, ins, k);
    TagWriterIsCritical(s.wp[p], WpGrants(c, i, g, p), s.bus);
    WritePortMutex(c, tr, ins, k);
    if w < c.n {
      TagWriterIsCritical(s.wp[w], WpGrants(c, i, g, w), s.bus);
    } else if c.geo.Index(s.bus.adr) == c.geo.Index(i.wp[p].adr) {
      var q, k0 := OverlapMeansUnlocked(c, tr, ins, k, p);
      assert RunsUnlocked(c, tr, ins, k, q, k0);
    }
  }

  lemma WriteEntered(r: WpRegs, i: WpIn, g: WpGnt, stb: bool, adr: Adr)
    requires InWrite(NextState(r, i, g))
    ensures InWrite(r.state) || (SamplesTag(r.state) && i.tag.valid)
    ensures NextRegs(r, i, g, stb, adr).tag == if SamplesTag(r.state) then i.tag else r.tag
    ensures InWrite(r.state) ==> !SamplesTag(r.state)
  {}

  // The port works on its write from 'd', where it sampled its tag, to 'k'.
  ghost predicate WritesFrom(c: Config, tr: seq<State>, ins: seq<Inputs>, d: nat, k: nat, p: nat)
    requires Run(c, tr, ins) && d < k < |ins| && p < c.n
  {
    && Legal(c, tr[d], ins[d]) && SamplesTag(tr[d].wp[p].state) && ins[d].wp[p].tag.valid
    && (forall j | d < j <= k ::
        Legal(c, tr[j], ins[j]) && InWrite(tr[j].wp[p].state) && tr[j].wp[p].tag == ins[d].wp[p].tag)
    && (forall j | d <= j <= k :: |ins[j].wp| == c.n && ins[j].wp[p].adr == ins[k].wp[p].adr)
  }

  // One cycle of a write.
  lemma WriteCycle(c: Config, tr: seq<State>, ins: seq<Inputs>, k: nat, p: nat)
    requires Run(c, tr, ins) && 0 < k < |ins| && p < c.n && Legal(c, tr[k], ins[k]) && InWrite(tr[k].wp[p].state)
    ensures Legal(c, tr[k - 1], ins[k - 1]) && ins[k - 1].wp[p].adr == ins[k].wp[p].adr
    ensures var r, i := tr[k - 1].wp[p], ins[k - 1].wp[p];
      && (InWrite(r.state) || (SamplesTag(r.state) && i.tag.valid)) && (InWrite(r.state) ==> !SamplesTag(r.state))
      && tr[k].wp[p].tag == if SamplesTag(r.state) then i.tag else r.tag
  {
    hide Inv, Granted, GrantsOf, Step, Initial, NextRegs, BusNext, RNextState, Offered, Ack, WpGrants, RpGrants;
    hide LockOwner;
    hide NextState, InWrite, SamplesTag, WayIndices, HasRequest;
    TagWriterIsCritical(tr[k].wp[p], WpGnt(false, false, false, false, false), tr[k].bus);
    var s, i, g := tr[k - 1], ins[k - 1], GrantsAt(c, tr, ins, k - 1);
    RunCycle(c, tr, ins, k - 1);
    RequestKept(c, tr, ins, p, k);
    assert tr[k - 1 + 1].wp[p] == NextWp(c, s, i, g, p);
    var w := LockOwner(c, g.linelock);
    NextRegsState(s.wp[p], i.wp[p], WpGrants(c, i, g, p), w >= 0 && w != p, if w >= 0 then i.wp[w].adr else 0);
    WriteEntered(s.wp[p], i.wp[p], WpGrants(c, i, g, p), w >= 0 && w != p, if w >= 0 then i.wp[w].adr else 0);
  }

  // A port in a write has sampled the tag of its line in a cycle 'd', found it valid and kept it since.
  lemma {:induction false} WriteBegins(c: Config, tr: seq<State>, ins: seq<Inputs>, k: nat, p: nat) returns (d: nat)
    requires Run(c, tr, ins) && k < |ins| && p < c.n && Legal(c, tr[k], ins[k]) && InWrite(tr[k].wp[p].state)
    ensures d < k && WritesFrom(c, tr, ins, d, k, p)
  {
    hide Inv, Initial, Step, GrantsOf, InWrite, SamplesTag, WayIndices, SameRequest, HasRequest;
    if k == 0 {
      TagWriterIsCritical(tr[k].wp[p], WpGnt(false, false, false, false, false), tr[k].bus);
      InitialIdle(c, tr[0], p);
      assert false;
    } else {
      WriteCycle(c, tr, ins, k, p);
      d := k - 1;
      if InWrite(tr[k - 1].wp[p].state) {
        d := WriteBegins(c, tr, ins, k - 1, p);
      }
    }
  }

  // A bank write goes to the index of the port's address and to the way in which the port has found its line: the way
  // of the valid tag that it sampled in a cycle 'd' of this access.
  lemma BankWriteHitsLine(c: Config, tr: seq<State>, ins: seq<Inputs>, k: nat, p: nat) returns (d: nat)
    requires Run(c, tr, ins) && k < |ins| && p < c.n && Legal(c, tr[k], ins[k])
    requires Occurs(BankWritten, tr[k].wp[p], ins[k].wp[p], WpGrants(c, ins[k], GrantsAt(c, tr, ins, k), p))
    ensures d < k && WritesFrom(c, tr, ins, d, k, p)
    ensures WayIndices(c, tr[k], ins[k])[2 * c.n + p] == c.geo.WayIndex(ins[k].wp[p].adr, ins[d].wp[p].tag.way)
  {
    WriterWrites(tr[k].wp[p], WpGrants(c, ins[k], GrantsAt(c, tr, ins, k), p), ins[k].wp[p]);
    DrivenWay(c, tr[k], ins[k], p);
    hide GrantsOf, Step, Initial, WpGrants, Occurs, InWrite, SamplesTag, TagOut, WayIndices, SameRequest;
    hide Geometry.WayIndex;
    d := WriteBegins(c, tr, ins, k, p);
  }

  lemma WriterWrites(r: WpRegs, g: WpGnt, i: WpIn)
    requires Occurs(BankWritten, r, i, g)
    ensures InWrite(r.state) && TagOut(r, i).way == r.tag.way
  {}

  lemma DrivenWay(c: Config, s: State, i: Inputs, p: nat)
    requires Legal(c, s, i) && p < c.n
    ensures WayIndices(c, s, i)[2 * c.n + p] == c.geo.WayIndex(i.wp[p].adr, TagOut(s.wp[p], i.wp[p]).way)
  {
    hide TagOut, Geometry.WayIndex, SameRequest;
  }

  // Port 'p' writes its tag, dirty, in some cycle after 'd' and before 'k'.
  ghost predicate TagWrittenSince(c: Config, tr: seq<State>, ins: seq<Inputs>, d: nat, k: nat, p: nat)
    requires Run(c, tr, ins) && d < k <= |ins| && p < c.n
  {
    exists j :: d < j < k && TagWrittenAt(c, tr, ins, j, p)
  }

  ghost predicate TagWrittenAt(c: Config, tr: seq<State>, ins: seq<Inputs>, j: nat, p: nat)
    requires Run(c, tr, ins) && j < |ins| && p < c.n
  {
    && Legal(c, tr[j], ins[j]) && TagOut(tr[j].wp[p], ins[j].wp[p]) == tr[j].wp[p].tag.(dirty := true)
    && Occurs(TagWritten, tr[j].wp[p], ins[j].wp[p], WpGrants(c, ins[j], GrantsAt(c, tr, ins, j), p))
  }

  // Which states tell that the tag has been written, or was dirty.
  lemma DirtyStep(r: WpRegs, i: WpIn, g: WpGnt)
    requires InWrite(NextState(r, i, g))
    ensures var n := NextState(r, i, g);
      && (n.WriteTag2AndBank? || n.WriteTag2? ==> Occurs(TagWritten, r, i, g) && TagOut(r, i) == r.tag.(dirty := true))
      && (n.WriteBank? ==>
          r.state.WriteBank? || r.state.WriteTag2AndBank? || (SamplesTag(r.state) && i.tag.dirty)
          || (r.state.ReadBank? && r.tag.dirty))
    ensures Occurs(TagWritten, r, i, g) ==> !SamplesTag(r.state)
  {}

  // One cycle of a write: what it adds to 'written', the tag writes so far, and 'dirty', the tag as it was found.
  lemma DirtyCycle(c: Config, tr: seq<State>, ins: seq<Inputs>, k: nat, p: nat)
    requires Run(c, tr, ins) && 0 < k < |ins| && p < c.n && Sized(c, tr[k]) && InWrite(tr[k].wp[p].state)
    ensures Legal(c, tr[k - 1], ins[k - 1])
    ensures var st, r, i := tr[k].wp[p].state, tr[k - 1].wp[p], ins[k - 1].wp[p];
      && (st.WriteTag2AndBank? || st.WriteTag2? ==> TagWrittenAt(c, tr, ins, k - 1, p) && !SamplesTag(r.state))
      && (st.WriteBank? ==>
          r.state.WriteBank? || r.state.WriteTag2AndBank? || (SamplesTag(r.state) && i.tag.dirty)
          || (r.state.ReadBank? && r.tag.dirty))
  {
    hide Inv, Granted, GrantsOf, Step, Initial, NextWp, BusNext, RNextState, Offered, Ack, WpGrants, RpGrants;
    hide NextState;
    hide InWrite, SamplesTag, WayIndices, HasRequest, Occurs, TagOut, SameRequest, Advances;
    RunCycle(c, tr, ins, k - 1);
    var s, i, g := tr[k - 1], ins[k - 1], GrantsAt(c, tr, ins, k - 1);
    NextStateOf(c, s, i, g, tr[k - 1 + 1], p);
    DirtyStep(s.wp[p], i.wp[p], WpGrants(c, i, g, p));
  }

  lemma {:induction false} DirtyOrWritten(c: Config, tr: seq<State>, ins: seq<Inputs>, d: nat, k: nat, p: nat)
    requires Run(c, tr, ins) && d < k < |ins| && p < c.n && WritesFrom(c, tr, ins, d, k, p)
    ensures var st := tr[k].wp[p].state;
      && (st.WriteTag2AndBank? || st.WriteTag2? ==> TagWrittenSince(c, tr, ins, d, k, p))
      && (st.WriteBank? ==> TagWrittenSince(c, tr, ins, d, k, p) || ins[d].wp[p].tag.dirty)
    decreases k
  {
    hide GrantsOf, Step, Initial, TagWrittenAt, SameRequest, HasRequest, WayIndices, InWrite, SamplesTag;
    DirtyCycle(c, tr, ins, k, p);
    if k - 1 > d {
      SamplesOrWrites(tr[k - 1].wp[p].state);
      DirtyOrWritten(c, tr, ins, d, k - 1, p);
    } else {
      SamplesOnly(tr[d].wp[p].state);
    }
  }

  lemma SamplesOnly(s: WpState)
    requires SamplesTag(s)
    ensures !s.WriteBank? && !s.WriteTag2AndBank? && !s.ReadBank?
  {}

  lemma SamplesOrWrites(s: WpState)
    ensures !(InWrite(s) && SamplesTag(s))
  {}

  lemma NextStateOf(c: Config, s: State, i: Inputs, g: Grants, t: State, p: nat)
    requires Advances(c, s, i, g, t) && p < c.n
    ensures t.wp[p].state == NextState(s.wp[p], i.wp[p], WpGrants(c, i, g, p))
  {
    hide NextState, Links, BusNext, RNextState, Offered, Ack, LockOwner, WpGrants, RpGrants, HasRequest, WayIndices;
    assert t.wp[p] == NextWp(c, s, i, g, p);
  }

  // If anyone but write port 'p' writes a tag in cycle 'j', it is the bus interface, on another set than that of 'a' or
  // in a special operation that was started without the line lock.
  ghost predicate NobodyElseWritesTag(c: Config, tr: seq<State>, ins: seq<Inputs>, j: nat, p: nat, a: Adr)
    requires Run(c, tr, ins) && j < |ins| && Legal(c, tr[j], ins[j])
  {
    forall w | 0 <= w <= c.n && w != p && WritesTag(c, tr[j], ins[j], GrantsAt(c, tr, ins, j), w) ::
      && w == c.n
      && (c.geo.Index(tr[j].bus.adr) == c.geo.Index(a) ==>
          exists q: nat, k0: nat :: RunsUnlocked(c, tr, ins, j, q, k0))
  }

  // When a port acknowledges a cached write, it has found the tag of its line dirty in a cycle 'd' or has written it
  // dirty since. From 'd' to the acknowledge no tag of the set has been written by anyone else, so that it still is
  // dirty, but for a special operation that was started without the line lock.
  lemma AckedTagHolds(c: Config, tr: seq<State>, ins: seq<Inputs>, k: nat, p: nat) returns (d: nat)
    requires Run(c, tr, ins) && k < |ins| && p < c.n && Legal(c, tr[k], ins[k]) && Critical(tr[k].wp[p].state)
    requires Ack(tr[k].wp[p], ins[k].wp[p], WpGrants(c, ins[k], GrantsAt(c, tr, ins, k), p))
    ensures d < k && WritesFrom(c, tr, ins, d, k, p)
    ensures ins[d].wp[p].tag.dirty || TagWrittenSince(c, tr, ins, d, k, p)
    ensures forall j | d <= j <= k ::
      Legal(c, tr[j], ins[j]) && NobodyElseWritesTag(c, tr, ins, j, p, ins[k].wp[p].adr)
  {
    AckStates(tr[k].wp[p], ins[k].wp[p], WpGrants(c, ins[k], GrantsAt(c, tr, ins, k), p));
    hide GrantsOf, Step, Initial, Ack, Critical, InWrite, SamplesTag, WpGrants, TagWrittenSince, WritesFrom;
    hide SameRequest;
    hide NobodyElseWritesTag, WayIndices;
    d := WriteBegins(c, tr, ins, k, p);
    DirtyOrWritten(c, tr, ins, d, k, p);
    forall j | d <= j <= k
      ensures Legal(c, tr[j], ins[j]) && NobodyElseWritesTag(c, tr, ins, j, p, ins[k].wp[p].adr)
    {
      WritesFromAt(c, tr, ins, d, k, p, j);
      NobodyElse(c, tr, ins, j, p);
    }
  }

  lemma WritesFromAt(c: Config, tr: seq<State>, ins: seq<Inputs>, d: nat, k: nat, p: nat, j: nat)
    requires Run(c, tr, ins) && d < k < |ins| && p < c.n && WritesFrom(c, tr, ins, d, k, p) && d <= j <= k
    ensures Legal(c, tr[j], ins[j]) && ins[j].wp[p].adr == ins[k].wp[p].adr
    ensures InWrite(tr[j].wp[p].state) || SamplesTag(tr[j].wp[p].state)
  {
    hide GrantsOf, Step, Initial, InWrite, SamplesTag, SameRequest, WayIndices;
  }

  lemma NobodyElse(c: Config, tr: seq<State>, ins: seq<Inputs>, j: nat, p: nat)
    requires Run(c, tr, ins) && j < |ins| && p < c.n && Legal(c, tr[j], ins[j])
    requires InWrite(tr[j].wp[p].state) || SamplesTag(tr[j].wp[p].state)
    ensures NobodyElseWritesTag(c, tr, ins, j, p, ins[j].wp[p].adr)
  {
    hide GrantsOf, Step, Initial, InWrite, SamplesTag, WritesTag, RunsUnlocked, SameRequest;
    forall w | 0 <= w <= c.n && w != p && WritesTag(c, tr[j], ins[j], GrantsAt(c, tr, ins, j), w)
      ensures w == c.n
      ensures c.geo.Index(tr[j].bus.adr) == c.geo.Index(ins[j].wp[p].adr) ==>
        exists q: nat, k0: nat :: RunsUnlocked(c, tr, ins, j, q, k0)
    {
      OthersWriteNoTag(c, tr, ins, j, p, w);
    }
  }

  lemma AckStates(r: WpRegs, i: WpIn, g: WpGnt)
    requires Ack(r, i, g) && Critical(r.state)
    ensures InWrite(r.state) && (r.state.WriteTag2AndBank? || r.state.WriteTag2? || r.state.WriteBank?)
  {}
}
