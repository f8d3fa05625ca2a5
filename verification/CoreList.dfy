// The linked list of the CoreMark benchmark (sw/coremark_v1.0/core_list_join.c). All list_head and list_data cells
// lie in one memory block; a pointer is the number of a cell and NULL is -1.

module CoreListSpec {

  const NULL := -1

  // A list_data cell: 'hi' and 'lo' are the bytes of data16.
  datatype ListData = ListData(idx: int, hi: nat, lo: nat) {
    predicate Valid() {
      -0x8000 <= idx < 0x8000 && hi < 0x100 && lo < 0x100
    }
  }

  datatype Cmp = CmpComplex | CmpIdx

  // The key of a cell has been computed and cached, or its low byte has been regenerated.
  predicate Settled(cmp: Cmp, d: ListData) {
    if cmp.CmpComplex? then d.lo >= 0x80 else d.lo == d.hi
  }

  function Key(cmp: Cmp, d: ListData): int {
    if cmp.CmpComplex? then d.lo % 0x80 else d.idx
  }

  // The value computed for a cell whose low byte is 'lo': bits 0 to 2 choose the kernel, bits 3 to 6, twice, are its
  // operand, and the state kernel has a smallest operand.
  function Computed(kernel: (nat, nat, nat) -> int, lo: nat, calls: nat): (v: int)
    ensures 0 <= v < 0x80
  {
    var operand := lo / 8 * 17;
    var v := if lo % 8 == 0 then kernel(0, if operand < 0x22 then 0x22 else operand, calls)
             else if lo % 8 == 1 then kernel(1, operand, calls)
             else lo;
    v % 0x80
  }

  // The operand is the byte 'o' that has bits 3 to 6 in both of its halves, the state kernel gets 0x22 at least, and a
  // cell without a kernel is its own value.
  lemma ComputedByBits(kernel: (nat, nat, nat) -> int, lo: nat, calls: nat, o: nat)
    requires lo < 0x80 && o / 0x10 == o % 0x10 == lo / 8
    ensures var v := Computed(kernel, lo, calls);
      && (lo % 8 == 0 ==> v == kernel(0, if o < 0x22 then 0x22 else o, calls) % 0x80)
      && (lo % 8 == 1 ==> v == kernel(1, o, calls) % 0x80)
      && (lo % 8 >= 2 ==> v == lo)
  {
    assert o == o / 0x10 * 0x10 + o % 0x10;
  }

  // What a comparison may do to a cell: nothing once it is settled.
  ghost predicate Evolved(cmp: Cmp, d: ListData, d': ListData) {
    d' == d || (!Settled(cmp, d) && Settled(cmp, d') && d'.Valid() && d' == d.(lo := d'.lo) &&
                (cmp.CmpComplex? && d.lo % 8 >= 2 ==> d'.lo == 0x80 + d.lo))
  }

  // ---------- Chains of nodes ----------

  function Head(s: seq<nat>): int {
    if s == [] then NULL else s[0]
  }

  // Each node points to the next one.
  ghost predicate Inner(next: seq<int>, s: seq<nat>) {
    && (forall i | 0 <= i < |s| :: s[i] < |next|)
    && (forall i | 0 <= i < |s| - 1 :: next[s[i]] == s[i + 1])
  }

  // ... and the last one to NULL.
  ghost predicate Chain(next: seq<int>, s: seq<nat>) {
    Inner(next, s) && (s != [] ==> next[s[|s| - 1]] == NULL)
  }

  ghost predicate Distinct(s: seq<nat>) {
    forall i, j | 0 <= i < j < |s| :: s[i] != s[j]
  }

  // ---------- Order ----------

  // The cells and the position of each node in the list to be sorted.
  datatype Cells = Cells(cmp: Cmp, info: seq<nat>, data: seq<ListData>, pos: seq<int>) {
    ghost predicate Valid() {
      && |info| == |pos|
      && (forall x | 0 <= x < |info| :: info[x] < |data|)
      && (forall x, y | 0 <= x < y < |info| :: info[x] != info[y])
      && (forall k | 0 <= k < |data| :: data[k].Valid())
    }

    ghost predicate Has(x: nat) {
      x < |info| && x < |pos| && info[x] < |data|
    }

    function At(x: nat): ListData
      requires Has(x)
    {
      data[info[x]]
    }

    // 'a' comes before 'b': both are settled, and the key decides, or the position among equal keys.
    ghost predicate Before(a: nat, b: nat) {
      && Has(a) && Has(b) && Settled(cmp, At(a)) && Settled(cmp, At(b))
      && (Key(cmp, At(a)) < Key(cmp, At(b)) || (Key(cmp, At(a)) == Key(cmp, At(b)) && pos[a] < pos[b]))
    }

    ghost predicate Sorted(s: seq<nat>) {
      forall i, j | 0 <= i < j < |s| :: Before(s[i], s[j])
    }

    ghost predicate AllBefore(s: seq<nat>, t: seq<nat>) {
      forall i, j | 0 <= i < |s| && 0 <= j < |t| :: Before(s[i], t[j])
    }

    // All of 's' stand before all of 't' in the original list.
    ghost predicate PosBelow(s: seq<nat>, t: seq<nat>) {
      Below(pos, s, t)
    }
  }

  ghost predicate Below(pos: seq<int>, s: seq<nat>, t: seq<nat>) {
    forall x, y | x in s && y in t :: x < |pos| && y < |pos| && pos[x] < pos[y]
  }

  // Comparisons have changed the data of some cells.
  ghost predicate DataEvolved(cmp: Cmp, data: seq<ListData>, data': seq<ListData>) {
    |data'| == |data| && forall k | 0 <= k < |data| :: Evolved(cmp, data[k], data'[k])
  }

  lemma EvolvedSame(cmp: Cmp, a: seq<ListData>)
    ensures DataEvolved(cmp, a, a)
  {}

  lemma EvolvedTrans(cmp: Cmp, a: seq<ListData>, b: seq<ListData>, c: seq<ListData>)
    requires DataEvolved(cmp, a, b) && DataEvolved(cmp, b, c)
    ensures DataEvolved(cmp, a, c)
  {}

  lemma BeforeTrans(c: Cells, x: nat, y: nat, z: nat)
    requires c.Before(x, y) && c.Before(y, z)
    ensures c.Before(x, z)
  {}

  lemma BeforeKept(c: Cells, data': seq<ListData>, a: nat, b: nat)
    requires c.Before(a, b) && DataEvolved(c.cmp, c.data, data')
    ensures c.(data := data').Before(a, b)
  {}

  // What has been ordered stays ordered when comparisons settle more cells.
  lemma OrderKept(c: Cells, data': seq<ListData>, s: seq<nat>, t: seq<nat>)
    requires DataEvolved(c.cmp, c.data, data')
    ensures c.Sorted(s) ==> c.(data := data').Sorted(s)
    ensures c.AllBefore(s, t) ==> c.(data := data').AllBefore(s, t)
  {
    forall a, b | c.Before(a, b)
      ensures c.(data := data').Before(a, b)
    {
      BeforeKept(c, data', a, b);
    }
  }

  // ---------- One step of a merge ----------

  ghost predicate Apart(s: seq<nat>, t: seq<nat>) {
    forall i, j | 0 <= i < |s| && 0 <= j < |t| :: s[i] != t[j]
  }

  // The merged nodes 'w', the two runs 'p' and 'q' and the rest 'r' are made of different nodes.
  ghost predicate Separate(w: seq<nat>, p: seq<nat>, q: seq<nat>, r: seq<nat>) {
    && Distinct(w) && Distinct(p) && Distinct(q) && Distinct(r)
    && Apart(w, p) && Apart(w, q) && Apart(w, r) && Apart(p, q) && Apart(p, r) && Apart(q, r)
  }

  // The nodes of a merge are linked: what has been merged, the first run, and the second run with the rest.
  ghost predicate Linked(next: seq<int>, w: seq<nat>, p: seq<nat>, q: seq<nat>, r: seq<nat>) {
    Inner(next, w) && Inner(next, p) && Chain(next, q + r) && Separate(w, p, q, r)
  }

  // Node 'e' is appended to 'w': tail->next = e.
  function Append(next: seq<int>, w: seq<nat>, e: nat): seq<int>
    requires Inner(next, w)
  {
    if w == [] then next else next[w[|w| - 1] := e]
  }

  lemma LinkP(next: seq<int>, w: seq<nat>, p: seq<nat>, q: seq<nat>, r: seq<nat>)
    requires Linked(next, w, p, q, r) && p != []
    ensures Linked(Append(next, w, p[0]), w + [p[0]], p[1..], q, r)
  {}

  lemma LinkQ(next: seq<int>, w: seq<nat>, p: seq<nat>, q: seq<nat>, r: seq<nat>)
    requires Linked(next, w, p, q, r) && q != []
    ensures Linked(Append(next, w, q[0]), w + [q[0]], p, q[1..], r)
  {
    assert (q + r)[0] == q[0] && q[0] < |next|;
    ChainTail(next, w, q + r, q[0]);
    assert (q + r)[1..] == q[1..] + r;
  }

  lemma ChainTail(next: seq<int>, w: seq<nat>, t: seq<nat>, e: nat)
    requires Inner(next, w) && Chain(next, t) && Apart(w, t) && t != []
    ensures Chain(Append(next, w, e), t[1..])
  {}

  // The merged part is sorted and before both runs, which are sorted; the first run stood before the second.
  ghost predicate Merging(c: Cells, m: seq<nat>, p: seq<nat>, q: seq<nat>) {
    && c.Sorted(m) && c.Sorted(p) && c.Sorted(q) && c.AllBefore(m, p) && c.AllBefore(m, q) && c.PosBelow(p, q)
  }

  lemma MergingKept(c: Cells, data': seq<ListData>, m: seq<nat>, p: seq<nat>, q: seq<nat>)
    requires Merging(c, m, p, q) && DataEvolved(c.cmp, c.data, data')
    ensures Merging(c.(data := data'), m, p, q)
  {
    OrderKept(c, data', m, p);
    OrderKept(c, data', p, q);
    OrderKept(c, data', q, p);
    OrderKept(c, data', m, q);
  }

  lemma FirstBefore(c: Cells, e: nat, t: seq<nat>)
    requires c.Sorted(t) && (t != [] ==> c.Before(e, t[0]))
    ensures c.AllBefore([e], t)
  {
    hide Cells.Before;
    forall j | 0 <= j < |t|
      ensures c.Before(e, t[j])
    {
      if j > 0 {
        BeforeTrans(c, e, t[0], t[j]);
      }
    }
  }

  lemma TakeP(c: Cells, m: seq<nat>, p: seq<nat>, q: seq<nat>)
    requires Merging(c, m, p, q) && p != [] && (q != [] ==> c.Before(p[0], q[0]))
    ensures Merging(c, m + [p[0]], p[1..], q)
  {
    hide Cells.Before;
    assert forall x | x in p[1..] :: x in p;
    FirstBefore(c, p[0], q);
  }

  lemma TakeQ(c: Cells, m: seq<nat>, p: seq<nat>, q: seq<nat>)
    requires Merging(c, m, p, q) && q != [] && (p != [] ==> c.Before(q[0], p[0]))
    ensures Merging(c, m + [q[0]], p, q[1..])
  {
    hide Cells.Before;
    assert forall x | x in q[1..] :: x in q;
    FirstBefore(c, q[0], p);
  }

  // One element moves from the first run to the merged part.
  lemma StepP(next: seq<int>, c: Cells, out: seq<nat>, m: seq<nat>, p: seq<nat>, q: seq<nat>, r: seq<nat>)
    requires Linked(next, out + m, p, q, r) && Merging(c, m, p, q)
    requires p != [] && (q != [] ==> c.Before(p[0], q[0]))
    ensures p[0] < |next| && (|p| > 1 ==> next[p[0]] == p[1])
    ensures Linked(Append(next, out + m, p[0]), out + (m + [p[0]]), p[1..], q, r)
    ensures Merging(c, m + [p[0]], p[1..], q)
    ensures multiset(m + [p[0]]) + multiset(p[1..]) == multiset(m) + multiset(p)
  {
    LinkP(next, out + m, p, q, r);
    TakeP(c, m, p, q);
    hide Linked, Merging, Cells.Before, Append;
    assert out + (m + [p[0]]) == (out + m) + [p[0]];
    assert p == [p[0]] + p[1..];
  }

  lemma StepQ(next: seq<int>, c: Cells, out: seq<nat>, m: seq<nat>, p: seq<nat>, q: seq<nat>, r: seq<nat>)
    requires Linked(next, out + m, p, q, r) && Merging(c, m, p, q)
    requires q != [] && (p != [] ==> c.Before(q[0], p[0]))
    ensures q[0] < |next| && next[q[0]] == Head(q[1..] + r)
    ensures Linked(Append(next, out + m, q[0]), out + (m + [q[0]]), p, q[1..], r)
    ensures Merging(c, m + [q[0]], p, q[1..])
    ensures multiset(m + [q[0]]) + multiset(q[1..]) == multiset(m) + multiset(q)
  {
    LinkQ(next, out + m, p, q, r);
    TakeQ(c, m, p, q);
    HeadOfRest(next, q, r);
    hide Linked, Merging, Cells.Before, Append;
    assert out + (m + [q[0]]) == (out + m) + [q[0]];
    assert q == [q[0]] + q[1..];
  }

  lemma HeadOfRest(next: seq<int>, q: seq<nat>, r: seq<nat>)
    requires Chain(next, q + r) && q != []
    ensures q[0] < |next| && next[q[0]] == Head(q[1..] + r)
  {
    var t, t' := q + r, q[1..] + r;
    assert t[0] == q[0] && (t' != [] ==> t[1] == t'[0]);
  }

  // ---------- The runs of a pass ----------

  function Flat(runs: seq<seq<nat>>): seq<nat> {
    if runs == [] then [] else runs[0] + Flat(runs[1..])
  }

  // Sorted runs of 'n' nodes, the last one possibly shorter, in the order of the original list.
  ghost predicate RunsOk(c: Cells, runs: seq<seq<nat>>, n: nat) {
    runs == [] ||
    (runs[0] != [] && |runs[0]| <= n && (|runs[0]| < n ==> |runs| == 1) && c.Sorted(runs[0]) &&
     c.PosBelow(runs[0], Flat(runs[1..])) && RunsOk(c, runs[1..], n))
  }

  lemma {:induction false} RunsKept(c: Cells, data': seq<ListData>, runs: seq<seq<nat>>, n: nat)
    requires RunsOk(c, runs, n) && DataEvolved(c.cmp, c.data, data')
    ensures RunsOk(c.(data := data'), runs, n)
  {
    hide DataEvolved, Cells.Sorted, Cells.Before;
    if runs != [] {
      OrderKept(c, data', runs[0], []);
      RunsKept(c, data', runs[1..], n);
    }
  }

  lemma {:induction false} FlatAppend(runs: seq<seq<nat>>, m: seq<nat>)
    ensures Flat(runs + [m]) == Flat(runs) + m
  {
    if runs == [] {
      assert (runs + [m])[1..] == [] && Flat([m]) == m + Flat([]);
    } else {
      FlatAppend(runs[1..], m);
      assert (runs + [m])[1..] == runs[1..] + [m];
    }
  }

  ghost predicate Full(runs: seq<seq<nat>>, n: nat) {
    forall k | 0 <= k < |runs| :: |runs[k]| == n
  }

  lemma {:induction false} RunsAppend(c: Cells, runs: seq<seq<nat>>, m: seq<nat>, n: nat)
    requires RunsOk(c, runs, n) && Full(runs, n) && c.Sorted(m) && m != [] && |m| <= n && c.PosBelow(Flat(runs), m)
    ensures RunsOk(c, runs + [m], n)
  {
    hide Cells.Sorted;
    var all := runs + [m];
    if runs == [] {
      assert all[1..] == [] && all[0] == m;
    } else {
      FlatAppend(runs[1..], m);
      assert all[1..] == runs[1..] + [m] && all[0] == runs[0];
      PosBelowParts(c, m, runs[0], Flat(runs[1..]));
      PosBelowParts(c, runs[0], Flat(runs[1..]), m);
      assert Full(runs[1..], n);
      RunsAppend(c, runs[1..], m, n);
    }
  }

  // The nodes of two runs, in any order, keep their place before the rest.
  lemma PosBelowMerged(c: Cells, m: seq<nat>, s: seq<nat>, t: seq<nat>, r: seq<nat>)
    requires multiset(m) == multiset(s) + multiset(t) && c.PosBelow(s, r) && c.PosBelow(t, r)
    ensures c.PosBelow(m, r)
  {
    forall x | x in m
      ensures x in s || x in t
    {
      assert x in multiset(m);
    }
  }

  lemma PosAboveMerged(c: Cells, r: seq<nat>, m: seq<nat>, s: seq<nat>, t: seq<nat>)
    requires multiset(m) == multiset(s) + multiset(t) && c.PosBelow(r, s) && c.PosBelow(r, t)
    ensures c.PosBelow(r, m)
  {
    forall x | x in m
      ensures x in s || x in t
    {
      assert x in multiset(m);
    }
  }

  lemma PosBelowParts(c: Cells, r: seq<nat>, s: seq<nat>, t: seq<nat>)
    ensures c.PosBelow(r, s + t) <==> c.PosBelow(r, s) && c.PosBelow(r, t)
    ensures c.PosBelow(s + t, r) <==> c.PosBelow(s, r) && c.PosBelow(t, r)
  {
    assert forall x :: x in s + t <==> x in s || x in t;
  }

  lemma DistinctParts(s: seq<nat>, t: seq<nat>)
    requires Distinct(s + t)
    ensures Distinct(s) && Distinct(t) && Apart(s, t)
  {
    var u := s + t;
    assert forall i | 0 <= i < |s| :: s[i] == u[i];
    assert forall j | 0 <= j < |t| :: t[j] == u[|s| + j];
  }

  lemma ApartParts(w: seq<nat>, s: seq<nat>, t: seq<nat>)
    requires Apart(w, s + t)
    ensures Apart(w, s) && Apart(w, t)
  {
    var u := s + t;
    assert forall i | 0 <= i < |s| :: s[i] == u[i];
    assert forall j | 0 <= j < |t| :: t[j] == u[|s| + j];
  }

  lemma ChainParts(next: seq<int>, s: seq<nat>, t: seq<nat>)
    requires Chain(next, s + t)
    ensures Inner(next, s) && Chain(next, t)
    ensures s != [] ==> next[s[|s| - 1]] == Head(t)
  {
    var u := s + t;
    assert forall i | 0 <= i < |s| :: s[i] == u[i];
    assert forall j | 0 <= j < |t| :: t[j] == u[|s| + j];
  }

  // The unprocessed nodes are split into two runs and the rest.
  lemma SplitLinked(next: seq<int>, w: seq<nat>, p: seq<nat>, q: seq<nat>, r: seq<nat>)
    requires Linked(next, w, [], [], p + (q + r))
    ensures Linked(next, w, p, q, r)
  {
    assert [] + (p + (q + r)) == p + (q + r);
    DistinctParts(p, q + r);
    DistinctParts(q, r);
    ApartParts(w, p, q + r);
    ApartParts(w, q, r);
    ApartParts(p, q, r);
    ChainParts(next, p, q + r);
    hide Distinct, Apart, Chain, Inner;
  }

  // ---------- The whole sort ----------

  function IndexOf(s: seq<nat>, x: nat, k: nat): int
    requires k <= |s|
    decreases |s| - k
  {
    if k == |s| then -1 else if s[k] == x then k else IndexOf(s, x, k + 1)
  }

  lemma {:induction false} IndexOfAt(s: seq<nat>, i: nat, k: nat)
    requires Distinct(s) && k <= i < |s|
    ensures IndexOf(s, s[i], k) == i
    decreases |s| - k
  {
    if s[k] != s[i] {
      IndexOfAt(s, i, k + 1);
    }
  }

  // The position of each node in the list 's'.
  function Positions(s: seq<nat>, n: nat): (pos: seq<int>)
    ensures |pos| == n
  {
    seq(n, x requires 0 <= x < n => IndexOf(s, x, 0))
  }

  function Singles(s: seq<nat>): seq<seq<nat>> {
    seq(|s|, k requires 0 <= k < |s| => [s[k]])
  }

  lemma {:induction false} SinglesOk(c: Cells, s: seq<nat>)
    requires forall i | 0 <= i < |s| :: s[i] < |c.pos|
    requires forall i, j | 0 <= i < j < |s| :: c.pos[s[i]] < c.pos[s[j]]
    ensures Flat(Singles(s)) == s && RunsOk(c, Singles(s), 1)
  {
    if s != [] {
      SinglesOk(c, s[1..]);
      assert Singles(s)[1..] == Singles(s[1..]) && Singles(s)[0] == [s[0]];
    }
  }

  lemma PositionsAscend(s: seq<nat>, n: nat)
    requires Distinct(s) && forall i | 0 <= i < |s| :: s[i] < n
    ensures forall i | 0 <= i < |s| :: Positions(s, n)[s[i]] == i
  {
    forall i | 0 <= i < |s|
      ensures Positions(s, n)[s[i]] == i
    {
      IndexOfAt(s, i, 0);
    }
  }

  // ---------- The result of a sort is unique ----------

  lemma BeforeIrreflexive(c: Cells, x: nat, y: nat)
    ensures !(c.Before(x, y) && c.Before(y, x))
  {}

  lemma FirstIsBefore(c: Cells, s: seq<nat>, t: seq<nat>)
    requires c.Sorted(s) && multiset(s) == multiset(t) && s != [] && t != []
    ensures s[0] == t[0] || c.Before(s[0], t[0])
  {
    assert t[0] in multiset(s);
  }

  lemma SortedFirst(c: Cells, s: seq<nat>, t: seq<nat>)
    requires c.Sorted(s) && c.Sorted(t) && multiset(s) == multiset(t) && s != [] && t != []
    ensures s[0] == t[0]
  {
    hide Cells.Before;
    FirstIsBefore(c, s, t);
    FirstIsBefore(c, t, s);
    BeforeIrreflexive(c, s[0], t[0]);
  }

  lemma TailSorted(c: Cells, s: seq<nat>)
    requires c.Sorted(s) && s != []
    ensures c.Sorted(s[1..])
  {
    hide Cells.Before;
    assert forall i | 0 <= i < |s| - 1 :: s[1..][i] == s[i + 1];
  }

  lemma TailsOfSame(s: seq<nat>, t: seq<nat>)
    requires s != [] && t != [] && s[0] == t[0] && multiset(s) == multiset(t)
    ensures multiset(s[1..]) == multiset(t[1..])
  {
    assert s == [s[0]] + s[1..] && t == [t[0]] + t[1..];
    assert multiset(s[1..]) == multiset(s) - multiset([s[0]]);
    assert multiset(t[1..]) == multiset(t) - multiset([t[0]]);
  }

  // Two sorted lists of the same nodes are the same list.
  lemma {:induction false} SortedUnique(c: Cells, s: seq<nat>, t: seq<nat>)
    requires c.Sorted(s) && c.Sorted(t) && multiset(s) == multiset(t)
    ensures s == t
  {
    hide Cells.Sorted, Cells.Before;
    if s == [] {
      assert |multiset(t)| == 0;
    } else {
      assert s[0] in multiset(t);
      SortedFirst(c, s, t);
      TailSorted(c, s);
      TailSorted(c, t);
      TailsOfSame(s, t);
      SortedUnique(c, s[1..], t[1..]);
      assert s == [s[0]] + s[1..] && t == [t[0]] + t[1..];
    }
  }

  // ---------- Other list operations ----------

  // A cell with index 'idx', or, if that is negative, with 'lo' as its low data byte.
  predicate Wanted(d: ListData, idx: int, lo: int) {
    if idx >= 0 then d.idx == idx else d.lo == lo
  }

  function Reversed(s: seq<nat>): (r: seq<nat>)
    ensures multiset(r) == multiset(s) && |r| == |s|
  {
    if s == [] then []
    else
      assert s == [s[0]] + s[1..];
      Reversed(s[1..]) + [s[0]]
  }

  // 's' and 't' are joined to one chain.
  lemma Join(next: seq<int>, s: seq<nat>, t: seq<nat>)
    requires Inner(next, s) && Chain(next, t) && s != [] && next[s[|s| - 1]] == Head(t)
    ensures Chain(next, s + t)
  {}

  lemma ChainElsewhere(next: seq<int>, s: seq<nat>, x: nat, v: int)
    requires Chain(next, s) && x < |next| && x !in s
    ensures Chain(next[x := v], s)
  {}

  // One step of a reversal: the first node that is left goes in front of what has been reversed.
  lemma ReverseStep(next: seq<int>, r: seq<nat>, s: seq<nat>)
    requires Chain(next, r) && Chain(next, s) && Distinct(r) && Distinct(s) && Apart(r, s) && s != []
    ensures var n := next[s[0] := Head(r)];
      Chain(n, [s[0]] + r) && Chain(n, s[1..]) && Distinct([s[0]] + r) && Apart([s[0]] + r, s[1..])
  {
    var n := next[s[0] := Head(r)];
    ChainElsewhere(next, r, s[0], Head(r));
    Join(n, [s[0]], r);
    assert s == [s[0]] + s[1..];
    ChainParts(next, [s[0]], s[1..]);
    ChainElsewhere(next, s[1..], s[0], Head(r));
    hide Chain, Inner;
  }

  lemma {:induction false} ReversedAt(s: seq<nat>, k: nat)
    requires k < |s|
    ensures Reversed(s)[|s| - 1 - k] == s[k]
  {
    if k > 0 {
      ReversedAt(s[1..], k - 1);
    }
  }

  // The node after 'u[k]' becomes the second node.
  function MovedToFront(u: seq<nat>, k: nat): seq<nat>
    requires k + 1 < |u|
  {
    if k == 0 then u else [u[0], u[k + 1]] + u[1..k + 1] + u[k + 2..]
  }

  // What one search of the benchmark makes of the list 's' if the node at 'k' was found first, or none for k == |s|.
  function Searched(s: seq<nat>, k: nat): seq<nat>
    requires k <= |s|
  {
    if 0 < k < |s| then MovedToFront(Reversed(s), |s| - 1 - k) else Reversed(s)
  }

  // f->next = g->next; g->next = l->next; l->next = g.
  function Relinked(next: seq<int>, f: nat, g: nat, l: nat): seq<int>
    requires f < |next| && g < |next| && l < |next|
  {
    var n1 := next[f := next[g]];
    var n2 := n1[g := n1[l]];
    n2[l := g]
  }

  lemma RelinkedSame(next: seq<int>, u: seq<nat>)
    requires Chain(next, u) && Distinct(u) && |u| > 1
    ensures Relinked(next, u[0], u[1], u[0]) == next
  {
    assert next[u[0]] == u[1] && u[0] != u[1];
  }

  // Only the three relinked nodes change.
  lemma RelinkedElsewhere(next: seq<int>, u: seq<nat>, k: nat)
    requires Chain(next, u) && Distinct(u) && 0 < k && k + 1 < |u|
    ensures var n := Relinked(next, u[k], u[k + 1], u[0]);
      && n[u[0]] == u[k + 1] && n[u[k + 1]] == u[1] && n[u[k]] == Head(u[k + 2..])
      && Inner(n, u[1..k + 1]) && Chain(n, u[k + 2..])
  {
    var n := Relinked(next, u[k], u[k + 1], u[0]);
    assert next[u[0]] == u[1];
    assert forall i | 1 <= i < |u| && i != k && i != k + 1 :: n[u[i]] == next[u[i]];
    assert next[u[k + 1]] == Head(u[k + 2..]);
  }

  lemma PutTogether(n: seq<int>, l: nat, g: nat, a: seq<nat>, b: seq<nat>)
    requires Inner(n, a) && Chain(n, b) && a != [] && n[a[|a| - 1]] == Head(b)
    requires g < |n| && n[g] == a[0] && l < |n| && n[l] == g
    ensures Chain(n, [l, g] + a + b)
  {
    Join(n, a, b);
    Join(n, [l, g], a + b);
    assert [l, g] + (a + b) == [l, g] + a + b;
  }

  lemma RelinkedMoves(next: seq<int>, u: seq<nat>, k: nat)
    requires Chain(next, u) && Distinct(u) && 0 < k && k + 1 < |u|
    ensures Chain(Relinked(next, u[k], u[k + 1], u[0]), MovedToFront(u, k))
  {
    RelinkedElsewhere(next, u, k);
    hide Relinked;
    var n, a := Relinked(next, u[k], u[k + 1], u[0]), u[1..k + 1];
    assert a[|a| - 1] == u[k] && a[0] == u[1];
    PutTogether(n, u[0], u[k + 1], a, u[k + 2..]);
  }

  lemma MovedSame(u: seq<nat>, k: nat)
    requires k + 1 < |u|
    ensures multiset(MovedToFront(u, k)) == multiset(u)
  {
    assert u == [u[0]] + u[1..k + 1] + [u[k + 1]] + u[k + 2..];
  }

  lemma {:induction false} DistinctOnce(s: seq<nat>, x: nat)
    requires Distinct(s)
    ensures multiset(s)[x] <= 1
  {
    if s != [] {
      DistinctOnce(s[1..], x);
      assert s == [s[0]] + s[1..];
      assert s[0] == x ==> x !in s[1..];
    }
  }

  lemma CountedTwice(t: seq<nat>, i: nat, j: nat)
    requires i < j < |t| && t[i] == t[j]
    ensures multiset(t)[t[i]] >= 2
  {
    assert t == t[..j] + t[j..];
    assert t[..j][i] == t[i] && t[j..][0] == t[i];
  }

  // A list with the same nodes has them once each, too.
  lemma DistinctSame(s: seq<nat>, t: seq<nat>)
    requires Distinct(s) && multiset(s) == multiset(t)
    ensures Distinct(t)
  {
    forall i, j | 0 <= i < j < |t|
      ensures t[i] != t[j]
    {
      if t[i] == t[j] {
        DistinctOnce(s, t[i]);
        CountedTwice(t, i, j);
      }
    }
  }

  // A reversal in progress: 'r' has been reversed and 's' has not.
  ghost predicate Reversing(next: seq<int>, r: seq<nat>, s: seq<nat>) {
    Chain(next, r) && Chain(next, s) && Distinct(r) && Distinct(s) && Apart(r, s)
  }

  lemma ReversingStep(next: seq<int>, r: seq<nat>, s: seq<nat>)
    requires Reversing(next, r, s) && s != []
    ensures s[0] < |next| && next[s[0]] == Head(s[1..])
    ensures Reversing(next[s[0] := Head(r)], [s[0]] + r, s[1..])
    ensures Reversed(s[1..]) + ([s[0]] + r) == Reversed(s) + r
  {
    ReverseStep(next, r, s);
    assert |s| > 1 ==> next[s[0]] == s[1];
  }

  // Index and backup byte of every cell are as before.
  ghost predicate Backed(data: seq<ListData>, data': seq<ListData>) {
    |data'| == |data| && forall k | 0 <= k < |data| :: data'[k].idx == data[k].idx && data'[k].hi == data[k].hi
  }

  lemma EvolvedBacked(cmp: Cmp, a: seq<ListData>, b: seq<ListData>, c: seq<ListData>)
    requires Backed(a, b) && DataEvolved(cmp, b, c)
    ensures Backed(a, c)
  {}

  // The list as the benchmark expects it: indices ascend, and the low data bytes equal their backups.
  ghost predicate Initialised(info: seq<nat>, data: seq<ListData>, s: seq<nat>) {
    && (forall i | 0 <= i < |s| :: s[i] < |info| && info[s[i]] < |data| && data[info[s[i]]].lo == data[info[s[i]]].hi)
    && (forall i, j | 0 <= i < j < |s| :: data[info[s[i]]].idx < data[info[s[j]]].idx)
  }

  lemma AllSettled(c: Cells, t: seq<nat>, x: nat)
    requires c.Sorted(t) && |t| > 1 && x in t
    ensures c.Has(x) && Settled(c.cmp, c.At(x))
  {
    var i :| 0 <= i < |t| && t[i] == x;
    if i == 0 {
      assert c.Before(t[0], t[1]);
    } else {
      assert c.Before(t[0], t[i]);
    }
  }

  // Sorting by index restores the order and the data of the list 's', whatever has happened to them since.
  lemma IndexSortRestores(c: Cells, data: seq<ListData>, s: seq<nat>, t: seq<nat>)
    requires c.cmp.CmpIdx? && c.Sorted(t) && multiset(t) == multiset(s) && |t| > 1
    requires Initialised(c.info, data, s) && Backed(data, c.data)
    ensures t == s && forall x | x in s :: c.Has(x) && c.info[x] < |data| && c.At(x) == data[c.info[x]]
  {
    forall x | x in s
      ensures c.Has(x) && Settled(CmpIdx, c.At(x)) && c.info[x] < |data| && c.At(x) == data[c.info[x]]
    {
      assert x in multiset(s);
      AllSettled(c, t, x);
      var i :| 0 <= i < |s| && s[i] == x;
    }
    assert c.Sorted(s);
    SortedUnique(c, s, t);
  }
}
