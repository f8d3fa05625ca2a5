// Which way the tag RAM delivers on a miss, over whole runs: the least recently accessed one, if use words are written
// back in time.

module TagRamRuns {
  import opened Address
  import opened CacheSpec
  import opened Lru
  import opened TagRam

  // After reset no use word waits to be written back.
  ghost predicate RamReset(p: Params, s: RamState) {
    && RamSized(p, s)
    && (forall x | 0 <= x < |s.ram| :: s.ram[x].use == ResetUse(p.ways))
    && (forall n | 0 <= n < |s.pending| :: !s.pending[n].wr)
  }

  // A run of the tag RAM: outs[k] are the tags delivered in cycle 'k'.
  ghost predicate RamRun(p: Params, ss: seq<RamState>, ins: seq<RamIn>, outs: seq<seq<CacheTag>>) {
    && |ss| == |ins| + 1 == |outs| + 1 && RamReset(p, ss[0])
    && forall k | 0 <= k < |ins| :: RamLegal(p, ss[k], ins[k]) && RamStep(p, ss[k], ins[k], ss[k + 1], outs[k])
  }

  // ---------- Accesses ----------

  // The way in which port 'n' finds its line, or -1.
  function HitWay(p: Params, s: RamState, i: RamIn, n: nat): (w: int)
    requires RamLegal(p, s, i) && n < |i.rd|
    ensures -1 <= w < p.ways
  {
    FindWay(s.ram[p.geo.Index(i.adr[n])].lines, p.geo.Tag(i.adr[n]), 0)
  }

  predicate ReadHits(p: Params, s: RamState, i: RamIn, n: nat)
    requires RamLegal(p, s, i) && n < |i.rd|
  {
    i.rd[n] && HitWay(p, s, i, n) >= 0
  }

  predicate ReadTouches(p: Params, s: RamState, i: RamIn, x: nat, n: nat)
    requires RamLegal(p, s, i) && n < |i.rd|
  {
    ReadHits(p, s, i, n) && p.geo.Index(i.adr[n]) == x
  }

  predicate WriteTouches(p: Params, s: RamState, i: RamIn, x: nat, n: nat)
    requires RamLegal(p, s, i) && n < |i.rd|
  {
    i.wr[n] && p.geo.Index(i.adr[n]) == x
  }

  // The way of set 'x' that is accessed in a cycle, by a tag write or a hit, if there is one.
  ghost function Access(p: Params, s: RamState, i: RamIn, x: nat): (a: seq<nat>)
    requires RamLegal(p, s, i)
    ensures forall k | 0 <= k < |a| :: a[k] < p.ways
  {
    if n: nat :| n < |i.rd| && WriteTouches(p, s, i, x, n) then [i.tagIn[n].way]
    else if n: nat :| n < |i.rd| && ReadTouches(p, s, i, x, n) then [HitWay(p, s, i, n)]
    else []
  }

  predicate Outstanding(s: RamState, x: nat, n: nat)
    requires n < |s.pending|
  {
    s.pending[n].wr && s.pending[n].iadr == x
  }

  ghost predicate NoneOutstanding(s: RamState, x: nat) {
    forall n: nat | n < |s.pending| :: !Outstanding(s, x, n)
  }

  // Use words of set 'x' are written back in time: one access at a time, with no write-back outstanding for the set,
  // and no hit at a port whose write-back is outstanding.
  ghost predicate InTime(p: Params, s: RamState, i: RamIn, x: nat)
    requires RamLegal(p, s, i)
  {
    && (forall m: nat, n: nat | m < |i.rd| && n < |i.rd| ::
        && (ReadTouches(p, s, i, x, m) && ReadTouches(p, s, i, x, n) ==> m == n)
        && !(ReadTouches(p, s, i, x, m) && WriteTouches(p, s, i, x, n)))
    && (forall n: nat | n < |i.rd| && (ReadTouches(p, s, i, x, n) || WriteTouches(p, s, i, x, n)) ::
      NoneOutstanding(s, x))
    && (forall n: nat | n < |i.rd| && s.pending[n].wr :: !ReadHits(p, s, i, n))
  }

  // The accesses to set 'x' before cycle 'k', in their order.
  ghost function Accesses(p: Params, ss: seq<RamState>, ins: seq<RamIn>, outs: seq<seq<CacheTag>>, x: nat,
    k: nat): (a: seq<nat>)
    requires RamRun(p, ss, ins, outs) && k <= |ins|
    ensures forall j | 0 <= j < |a| :: a[j] < p.ways
  {
    if k == 0 then [] else Accesses(p, ss, ins, outs, x, k - 1) + Access(p, ss[k - 1], ins[k - 1], x)
  }

  // ---------- The use word tells the accesses ----------

  // The use word of the accesses 'a' is stored, or waits to be written back.
  ghost predicate Recorded(p: Params, s: RamState, x: nat, a: seq<nat>)
    requires RamSized(p, s) && x < p.geo.sets && forall j | 0 <= j < |a| :: a[j] < p.ways
  {
    && (forall n: nat | n < |s.pending| && Outstanding(s, x, n) :: s.pending[n].use == UseAfter(p.ways, a))
    && (NoneOutstanding(s, x) ==> s.ram[x].use == UseAfter(p.ways, a))
  }

  lemma UseOfNext(ways: nat, a: seq<nat>, w: nat)
    requires Supported(ways) && w < ways && forall k | 0 <= k < |a| :: a[k] < ways
    ensures UseAfter(ways, a + [w]) == NewUse(ways, UseAfter(ways, a), w)
  {
    hide NewUse;
    assert (a + [w])[..|a|] == a;
  }

  // What a port has pending after its read.
  lemma ReadNotes(p: Params, s: RamState, i: RamIn, n: nat)
    requires RamLegal(p, s, i) && n < |i.rd|
    ensures !ReadHits(p, s, i, n) ==> AfterRead(p, s, i, n) == s.pending[n]
    ensures ReadHits(p, s, i, n) ==>
      var x, q := p.geo.Index(i.adr[n]), AfterRead(p, s, i, n);
      var u := NewUse(p.ways, s.ram[x].use, HitWay(p, s, i, n));
      if u != s.ram[x].use then q == Pending(u, x, true) else !q.wr
  {
    hide NewUse, FindWay;
  }

  lemma StepSized(p: Params, s: RamState, i: RamIn, t: RamState, out: seq<CacheTag>)
    requires RamLegal(p, s, i) && RamStep(p, s, i, t, out)
    ensures RamSized(p, t)
  {
    hide NewUse, TagFor, FirstPending;
    forall n | 0 <= n < |t.pending|
      ensures t.pending[n].iadr < p.geo.sets
    {
      ReadNotes(p, s, i, n);
    }
    if w :| 0 <= w < |i.wr| && i.wr[w] {
      assert TagIsWritten(p, s, i, t.ram, w);
    } else {
      assert UseIsWritten(s, t.ram);
    }
  }

  // A write-back is outstanding because of a hit, or it was before; it stays so unless it is made or its port hits.
  lemma PendingStays(p: Params, s: RamState, i: RamIn, t: RamState, out: seq<CacheTag>, x: nat, m: nat)
    requires RamLegal(p, s, i) && RamStep(p, s, i, t, out) && m < |i.rd| && (s.pending[m].wr ==> !ReadHits(p, s, i, m))
    ensures Outstanding(t, x, m) && !ReadTouches(p, s, i, x, m) ==>
      Outstanding(s, x, m) && t.pending[m] == s.pending[m]
    ensures Outstanding(s, x, m) && !(NoWrite(i.wr) && m == FirstPending(s.pending, 0)) ==>
      Outstanding(t, x, m) && t.pending[m] == s.pending[m]
  {
    hide NewUse, TagFor, HitWay, TagIsWritten, UseIsWritten, AfterRead;
    ReadNotes(p, s, i, m);
  }

  lemma NoneBegins(p: Params, s: RamState, i: RamIn, t: RamState, out: seq<CacheTag>, x: nat, n: nat)
    requires RamLegal(p, s, i) && RamStep(p, s, i, t, out) && InTime(p, s, i, x) && NoneOutstanding(s, x)
    requires forall m: nat | m < |i.rd| && m != n :: !ReadTouches(p, s, i, x, m)
    ensures forall m: nat | m < |t.pending| && m != n :: !Outstanding(t, x, m)
  {
    hide RamStep, Outstanding, ReadTouches, ReadHits, WriteTouches;
    forall m: nat | m < |i.rd| && m != n
      ensures |t.pending| == |i.rd| && !Outstanding(t, x, m)
    {
      PendingStays(p, s, i, t, out, x, m);
      StepLengths(p, s, i, t, out);
    }
    StepLengths(p, s, i, t, out);
  }

  lemma StepLengths(p: Params, s: RamState, i: RamIn, t: RamState, out: seq<CacheTag>)
    requires RamLegal(p, s, i) && RamStep(p, s, i, t, out)
    ensures |t.pending| == |i.rd| == |out| && |t.ram| == |s.ram|
  {}

  // A tag write of the set.
  lemma WriteRecords(p: Params, s: RamState, i: RamIn, t: RamState, out: seq<CacheTag>, x: nat, a: seq<nat>, n: nat)
    requires RamLegal(p, s, i) && RamStep(p, s, i, t, out) && InTime(p, s, i, x) && x < p.geo.sets
    requires (forall j | 0 <= j < |a| :: a[j] < p.ways) && Recorded(p, s, x, a)
    requires n < |i.rd| && WriteTouches(p, s, i, x, n)
    ensures Access(p, s, i, x) == [i.tagIn[n].way] && RamSized(p, t) && Recorded(p, t, x, a + Access(p, s, i, x))
  {
    StepSized(p, s, i, t, out);
    assert Access(p, s, i, x) == [i.tagIn[n].way];
    UseOfNext(p.ways, a, i.tagIn[n].way);
    assert TagIsWritten(p, s, i, t.ram, n);
    NoneBegins(p, s, i, t, out, x, |i.rd|);
    hide RamStep, NewUse, HitWay, Access;
  }

  // The hit way 'w' of port 'n' has been noted.
  lemma HitIsRecorded(p: Params, t: RamState, x: nat, a: seq<nat>, n: nat, w: nat)
    requires RamSized(p, t) && x < p.geo.sets && w < p.ways && n < |t.pending|
      && forall j | 0 <= j < |a| :: a[j] < p.ways
    requires t.ram[x].use == UseAfter(p.ways, a)
    requires forall m: nat | m < |t.pending| && m != n :: !Outstanding(t, x, m)
    requires var u := NewUse(p.ways, t.ram[x].use, w);
      if u != t.ram[x].use then t.pending[n] == Pending(u, x, true) else !t.pending[n].wr
    ensures Recorded(p, t, x, a + [w])
  {
    UseOfNext(p.ways, a, w);
    hide NewUse, UseAfter;
    if NewUse(p.ways, t.ram[x].use, w) != t.ram[x].use {
      assert Outstanding(t, x, n);
    }
  }

  // A hit in the set.
  lemma ReadRecords(p: Params, s: RamState, i: RamIn, t: RamState, out: seq<CacheTag>, x: nat, a: seq<nat>, n: nat)
    requires RamLegal(p, s, i) && RamStep(p, s, i, t, out) && InTime(p, s, i, x) && x < p.geo.sets
    requires (forall j | 0 <= j < |a| :: a[j] < p.ways) && Recorded(p, s, x, a)
    requires n < |i.rd| && ReadTouches(p, s, i, x, n)
    ensures Access(p, s, i, x) == [HitWay(p, s, i, n)] && RamSized(p, t) && Recorded(p, t, x, a + Access(p, s, i, x))
  {
    var w := HitWay(p, s, i, n);
    AccessOfHit(p, s, i, x, n);
    StepSized(p, s, i, t, out);
    SetKept(p, s, i, t, out, x, n);
    NoneBegins(p, s, i, t, out, x, n);
    HitNoted(p, s, i, t, out, x, n);
    assert 0 <= w;
    hide RamLegal, RamStep, InTime, NewUse, HitWay, UseAfter, WriteTouches, ReadTouches, Access;
    HitIsRecorded(p, t, x, a, n, w);
  }

  lemma AccessOfHit(p: Params, s: RamState, i: RamIn, x: nat, n: nat)
    requires RamLegal(p, s, i) && InTime(p, s, i, x) && n < |i.rd| && ReadTouches(p, s, i, x, n)
    ensures Access(p, s, i, x) == [HitWay(p, s, i, n)]
    ensures forall m: nat | m < |i.rd| :: !WriteTouches(p, s, i, x, m) && (m != n ==> !ReadTouches(p, s, i, x, m))
  {
    hide HitWay;
    assert forall m: nat | m < |i.rd| :: !WriteTouches(p, s, i, x, m);
  }

  lemma HitNoted(p: Params, s: RamState, i: RamIn, t: RamState, out: seq<CacheTag>, x: nat, n: nat)
    requires RamLegal(p, s, i) && RamStep(p, s, i, t, out) && InTime(p, s, i, x)
    requires n < |i.rd| && ReadTouches(p, s, i, x, n)
    ensures var u := NewUse(p.ways, s.ram[x].use, HitWay(p, s, i, n));
      && |t.pending| == |i.rd| && (if u != s.ram[x].use then t.pending[n] == Pending(u, x, true) else !t.pending[n].wr)
  {
    ReadNotes(p, s, i, n);
    assert !s.pending[n].wr;
    assert n != FirstPending(s.pending, 0);
    hide NewUse, HitWay, TagFor, AfterRead, UseIsWritten, TagIsWritten, WriteTouches;
  }

  // What is stored for the set stays if it is not written and nothing of it waits.
  lemma SetKept(p: Params, s: RamState, i: RamIn, t: RamState, out: seq<CacheTag>, x: nat, n: nat)
    requires RamLegal(p, s, i) && RamStep(p, s, i, t, out) && x < p.geo.sets && NoneOutstanding(s, x)
    requires forall m: nat | m < |i.rd| :: !WriteTouches(p, s, i, x, m)
    ensures t.ram[x] == s.ram[x]
  {
    hide NewUse, TagFor;
    if w :| 0 <= w < |i.wr| && i.wr[w] {
      assert TagIsWritten(p, s, i, t.ram, w);
      assert !WriteTouches(p, s, i, x, w);
    } else {
      assert UseIsWritten(s, t.ram);
      var k := FirstPending(s.pending, 0);
      assert k >= 0 ==> !Outstanding(s, x, k);
    }
  }

  // No access to the set: a use word of it may be written back.
  lemma OtherRecords(p: Params, s: RamState, i: RamIn, t: RamState, out: seq<CacheTag>, x: nat, a: seq<nat>)
    requires RamLegal(p, s, i) && RamStep(p, s, i, t, out) && InTime(p, s, i, x) && x < p.geo.sets
    requires (forall j | 0 <= j < |a| :: a[j] < p.ways) && Recorded(p, s, x, a)
    requires forall n: nat | n < |i.rd| :: !ReadTouches(p, s, i, x, n) && !WriteTouches(p, s, i, x, n)
    ensures Access(p, s, i, x) == [] && RamSized(p, t) && Recorded(p, t, x, a)
  {
    StepSized(p, s, i, t, out);
    assert Access(p, s, i, x) == [];
    SetStored(p, s, i, t, out, x, a);
    StepLengths(p, s, i, t, out);
    hide RamStep, ReadHits, ReadTouches, WriteTouches, Access, NoneOutstanding, UseAfter, Outstanding;
    forall m: nat | m < |t.pending| && Outstanding(t, x, m)
      ensures t.pending[m].use == UseAfter(p.ways, a)
    {
      PendingStays(p, s, i, t, out, x, m);
    }
  }

  // The use word that is stored when nothing waits any more.
  lemma SetStored(p: Params, s: RamState, i: RamIn, t: RamState, out: seq<CacheTag>, x: nat, a: seq<nat>)
    requires RamLegal(p, s, i) && RamStep(p, s, i, t, out) && InTime(p, s, i, x) && x < p.geo.sets
    requires (forall j | 0 <= j < |a| :: a[j] < p.ways) && Recorded(p, s, x, a)
    requires forall n: nat | n < |i.rd| :: !WriteTouches(p, s, i, x, n)
    ensures NoneOutstanding(t, x) ==> |t.ram| == |s.ram| && t.ram[x].use == UseAfter(p.ways, a)
  {
    var k := FirstPending(s.pending, 0);
    StepLengths(p, s, i, t, out);
    if NoWrite(i.wr) && k >= 0 && Outstanding(s, x, k) {
      assert UseIsWritten(s, t.ram);
    } else if NoneOutstanding(s, x) {
      SetKept(p, s, i, t, out, x, 0);
    } else {
      hide RamStep, UseAfter, ReadHits, WriteTouches, ReadTouches;
      var m: nat :| m < |s.pending| && Outstanding(s, x, m);
      PendingStays(p, s, i, t, out, x, m);
      assert Outstanding(t, x, m);
    }
  }

  lemma StepRecords(p: Params, s: RamState, i: RamIn, t: RamState, out: seq<CacheTag>, x: nat, a: seq<nat>)
    requires RamLegal(p, s, i) && RamStep(p, s, i, t, out) && InTime(p, s, i, x) && x < p.geo.sets
    requires (forall j | 0 <= j < |a| :: a[j] < p.ways) && Recorded(p, s, x, a)
    ensures RamSized(p, t) && Recorded(p, t, x, a + Access(p, s, i, x))
  {
    hide RamStep, RamLegal, InTime, Recorded, Access, WriteTouches, ReadTouches;
    if n: nat :| n < |i.rd| && WriteTouches(p, s, i, x, n) {
      WriteRecords(p, s, i, t, out, x, a, n);
    } else if n: nat :| n < |i.rd| && ReadTouches(p, s, i, x, n) {
      ReadRecords(p, s, i, t, out, x, a, n);
    } else {
      OtherRecords(p, s, i, t, out, x, a);
      assert a + [] == a;
    }
  }

  // Use words of set 'x' are written back in time before cycle 'k'.
  ghost predicate InTimeUntil(p: Params, ss: seq<RamState>, ins: seq<RamIn>, outs: seq<seq<CacheTag>>, x: nat, k: nat)
    requires RamRun(p, ss, ins, outs) && k <= |ins|
  {
    forall j | 0 <= j < k :: InTime(p, ss[j], ins[j], x)
  }

  lemma {:induction false} RunRecords(p: Params, ss: seq<RamState>, ins: seq<RamIn>, outs: seq<seq<CacheTag>>, x: nat,
    k: nat)
    requires RamRun(p, ss, ins, outs) && k <= |ins| && x < p.geo.sets && InTimeUntil(p, ss, ins, outs, x, k)
    ensures RamSized(p, ss[k]) && Recorded(p, ss[k], x, Accesses(p, ss, ins, outs, x, k))
  {
    hide RamStep, RamLegal, InTime;
    if k > 0 {
      hide Recorded, Access, RamSized, RamReset;
      RunRecords(p, ss, ins, outs, x, k - 1);
      StepRecords(p, ss[k - 1], ins[k - 1], ss[k - 1 + 1], outs[k - 1], x, Accesses(p, ss, ins, outs, x, k - 1));
    }
  }

  // A port that finds its line in no way gets the way whose last access is the longest ago, if nothing waits to be
  // written back for the set and its use words have been written back in time so far.
  lemma MissGetsLeastRecent(p: Params, ss: seq<RamState>, ins: seq<RamIn>, outs: seq<seq<CacheTag>>, k: nat, n: nat,
    other: nat)
    requires RamRun(p, ss, ins, outs) && k < |ins| && RamLegal(p, ss[k], ins[k]) && n < |ins[k].rd| && ins[k].rd[n]
    requires var x := p.geo.Index(ins[k].adr[n]);
      && InTimeUntil(p, ss, ins, outs, x, k) && NoneOutstanding(ss[k], x)
      && forall w | 0 <= w < p.ways :: !ss[k].ram[x].lines[w].Hits(p.geo.Tag(ins[k].adr[n]))
    requires |outs[k]| == |ins[k].rd| && other < p.ways && other != outs[k][n].way
    ensures var x, v := p.geo.Index(ins[k].adr[n]), outs[k][n].way;
      var a := Accesses(p, ss, ins, outs, x, k);
      && v < p.ways && !outs[k][n].valid && LastAccess(p.ways, a, v) < LastAccess(p.ways, a, other)
  {
    var x, s := p.geo.Index(ins[k].adr[n]), ss[k];
    var a := Accesses(p, ss, ins, outs, x, k);
    RunRecords(p, ss, ins, outs, x, k);
    assert RamStep(p, s, ins[k], ss[k + 1], outs[k]);
    hide RamRun, RamStep, InTimeUntil, Accesses, LastAccess, UseAfter, OrderAfter, Victim;
    OrderEncoded(p.ways, a);
    TagForDelivers(p.ways, s.ram[x], p.geo.Tag(ins[k].adr[n]), OrderAfter(p.ways, a));
    VictimIsFirst(p.ways, UseAfter(p.ways, a), OrderAfter(p.ways, a));
    VictimIsLeastRecent(p.ways, a, other);
  }

  // Otherwise it can be the one accessed last: a hit in the first way of the order leaves the stored use word as it is
  // for one more cycle, and a miss then gets just that way.
  lemma MissGetsJustAccessed(p: Params, s: RamState, i: RamIn, t: RamState, out: seq<CacheTag>, i': RamIn, t': RamState,
      out': seq<CacheTag>, m: nat, n: nat, order: seq<nat>)
    requires RamLegal(p, s, i) && RamStep(p, s, i, t, out) && RamLegal(p, t, i') && RamStep(p, t, i', t', out')
    requires m < |i.rd| && n < |i'.rd| && NoWrite(i.wr) && forall j | 0 <= j < |s.pending| :: !s.pending[j].wr
    requires var x := p.geo.Index(i.adr[m]);
      && Ordered(p.ways, s.ram[x].use, order) && ReadTouches(p, s, i, x, m) && HitWay(p, s, i, m) == order[0]
      && i'.rd[n] && p.geo.Index(i'.adr[n]) == x && !ReadTouches(p, t, i', x, n)
    ensures out[m].valid && !out'[n].valid && out'[n].way == out[m].way == order[0]
  {
    hide NewUse, Victim;
    var x := p.geo.Index(i.adr[m]);
    SetKept(p, s, i, t, out, x, m);
    TagForDelivers(p.ways, t.ram[x], p.geo.Tag(i'.adr[n]), order);
  }

  // ---------- Write-backs are made ----------

  // The number of ports whose use word waits to be written back.
  function Waiting(q: seq<Pending>): nat {
    if q == [] then 0 else Waiting(q[..|q| - 1]) + if q[|q| - 1].wr then 1 else 0
  }

  lemma {:induction false} WaitingNone(q: seq<Pending>)
    requires forall n | 0 <= n < |q| :: !q[n].wr
    ensures Waiting(q) == 0
  {
    if q != [] {
      WaitingNone(q[..|q| - 1]);
    }
  }

  lemma {:induction false} NoneWaits(q: seq<Pending>)
    requires Waiting(q) == 0
    ensures forall n | 0 <= n < |q| :: !q[n].wr
  {
    if q != [] {
      NoneWaits(q[..|q| - 1]);
    }
  }

  lemma {:induction false} WaitingLess(q: seq<Pending>, k: nat)
    requires k < |q| && q[k].wr
    ensures Waiting(q[k := q[k].(wr := false)]) == Waiting(q) - 1
  {
    var u, m := q[k := q[k].(wr := false)], |q| - 1;
    if k < m {
      WaitingLess(q[..m], k);
      assert u[..m] == q[..m][k := q[k].(wr := false)];
    } else {
      assert u[..m] == q[..m];
    }
  }

  lemma {:induction false} FirstPendingFinds(q: seq<Pending>, k: nat)
    requires k <= |q|
    ensures FirstPending(q, k) == -1 ==> forall n | k <= n < |q| :: !q[n].wr
    decreases |q| - k
  {
    if k < |q| {
      FirstPendingFinds(q, k + 1);
    }
  }

  // A cycle in which no tag is written and no port hits.
  ghost predicate Quiet(p: Params, s: RamState, i: RamIn)
    requires RamLegal(p, s, i)
  {
    NoWrite(i.wr) && forall n | 0 <= n < |i.rd| :: !ReadHits(p, s, i, n)
  }

  // One use word is written back in such a cycle, if one waits.
  lemma QuietCycleWritesBack(p: Params, s: RamState, i: RamIn, t: RamState, out: seq<CacheTag>)
    requires RamLegal(p, s, i) && RamStep(p, s, i, t, out) && Quiet(p, s, i)
    ensures Waiting(t.pending) == if Waiting(s.pending) > 0 then Waiting(s.pending) - 1 else 0
  {
    hide TagFor, UseIsWritten, TagIsWritten, ReadHits;
    var k := FirstPending(s.pending, 0);
    forall n | 0 <= n < |i.rd|
      ensures AfterRead(p, s, i, n) == s.pending[n]
    {
      ReadNotes(p, s, i, n);
    }
    FirstPendingFinds(s.pending, 0);
    if k >= 0 {
      assert t.pending == s.pending[k := s.pending[k].(wr := false)];
      WaitingLess(s.pending, k);
    } else {
      assert t.pending == s.pending;
      WaitingNone(s.pending);
    }
  }

  // After as many such cycles as ports wait, no write-back is outstanding in any set.
  lemma {:induction false} WriteBacksDrain(p: Params, ss: seq<RamState>, ins: seq<RamIn>, outs: seq<seq<CacheTag>>,
      j: nat, k: nat, x: nat)
    requires RamRun(p, ss, ins, outs) && j <= k <= |ins|
    requires forall y | j <= y < k :: RamLegal(p, ss[y], ins[y]) && Quiet(p, ss[y], ins[y])
    ensures Waiting(ss[k].pending) <= if Waiting(ss[j].pending) > k - j then Waiting(ss[j].pending) - (k - j) else 0
    ensures Waiting(ss[j].pending) <= k - j ==> NoneOutstanding(ss[k], x)
    decreases k
  {
    hide RamStep, RamLegal, Quiet, RamReset;
    if k > j {
      WriteBacksDrain(p, ss, ins, outs, j, k - 1, x);
      QuietCycleWritesBack(p, ss[k - 1], ins[k - 1], ss[k - 1 + 1], outs[k - 1]);
    }
    if Waiting(ss[k].pending) == 0 {
      NoneWaits(ss[k].pending);
    }
  }
}
