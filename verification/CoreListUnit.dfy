// The list operations as they relink the nodes and rewrite the data in place.

module CoreListUnit {
  import opened CoreListSpec

  class CoreList {
    // The matrix and state kernels: operation, argument and the number of calls before.
    const kernel: (nat, nat, nat) -> int

    var next: seq<int>         // list_head: the next node
    var info: seq<nat>         // list_head: the data cell
    var data: seq<ListData>
    var calls: nat

    // Every node owns its data cell.
    ghost predicate Valid()
      reads this
    {
      && |next| == |info|
      && (forall x | 0 <= x < |info| :: info[x] < |data|)
      && (forall x, y | 0 <= x < y < |info| :: info[x] != info[y])
      && (forall k | 0 <= k < |data| :: data[k].Valid())
    }

    ghost function View(cmp: Cmp, pos: seq<int>): Cells
      reads this
    {
      Cells(cmp, info, data, pos)
    }

    constructor (kernel: (nat, nat, nat) -> int)
      ensures Valid() && this.kernel == kernel
    {
      this.kernel := kernel;
      next, info, data, calls := [], [], [], 0;
    }

    // The value of a cell is computed at the first call and cached.
    method CalcFunc(x: nat) returns (retval: int)
      requires Valid() && x < |data|
      modifies this`data, this`calls
      ensures Valid() && DataEvolved(CmpComplex, old(data), data) && Settled(CmpComplex, data[x])
      ensures retval == Key(CmpComplex, data[x])
      ensures data == old(data)[x := data[x]]
      ensures old(data)[x].lo < 0x80 ==> retval == Computed(kernel, old(data)[x].lo, old(calls))
      ensures calls == old(calls) + if old(data)[x].lo < 0x80 && old(data)[x].lo % 8 < 2 then 1 else 0
    {
      var d := data[x];
      if d.lo >= 0x80 {
        retval := d.lo % 0x80;
      } else {
        var flag, dtype := d.lo % 8, d.lo / 8 * 17;   // the four bits of the operand, twice
        match flag {
          case 0 =>
            if dtype < 0x22 {
              dtype := 0x22;
            }
            retval := kernel(0, dtype, calls);
            calls := calls + 1;
          case 1 =>
            retval := kernel(1, dtype, calls);
            calls := calls + 1;
          case _ =>
            retval := d.lo;
        }
        retval := retval % 0x80;
        data := data[x := d.(lo := 0x80 + retval)];
      }
    }

    // The data of both cells is regenerated from the backup in the high byte.
    method CmpIdxNull(a: nat, b: nat) returns (r: int)
      requires Valid() && a < |data| && b < |data|
      modifies this`data
      ensures Valid() && DataEvolved(CmpIdx, old(data), data) && Settled(CmpIdx, data[a]) && Settled(CmpIdx, data[b])
      ensures r == Key(CmpIdx, data[a]) - Key(CmpIdx, data[b])
      ensures data == old(data)[a := data[a]][b := data[b]]
    {
      data := data[a := data[a].(lo := data[a].hi)];
      data := data[b := data[b].(lo := data[b].hi)];
      r := data[a].idx - data[b].idx;
    }

    method Compare(cmp: Cmp, a: nat, b: nat) returns (r: int)
      requires Valid() && a < |data| && b < |data| && a != b
      modifies this`data, this`calls
      ensures Valid() && DataEvolved(cmp, old(data), data) && Settled(cmp, data[a]) && Settled(cmp, data[b])
      ensures r == Key(cmp, data[a]) - Key(cmp, data[b])
      ensures data == old(data)[a := data[a]][b := data[b]]
    {
      match cmp {
        case CmpComplex =>
          var val1 := CalcFunc(a);
          ghost var d := data;
          var val2 := CalcFunc(b);
          EvolvedTrans(CmpComplex, old(data), d, data);
          r := val1 - val2;
        case CmpIdx =>
          r := CmpIdxNull(a, b);
      }
    }

    // The next element of a merge is linked behind the last one.
    method Link(list: int, tail: int, e: nat, ghost w: seq<nat>) returns (list': int)
      requires Inner(next, w) && list == Head(w) && tail == (if w == [] then NULL else w[|w| - 1])
      modifies this`next
      ensures next == Append(old(next), w, e) && list' == Head(w + [e])
    {
      list' := list;
      if tail != NULL {
        next := next[tail := e];
      } else {
        list' := e;
      }
    }

    // One comparison decides which run gives the next element.
    method FirstIsLower(cmp: Cmp, p: nat, q: nat, ghost pos: seq<int>) returns (lower: bool)
      requires Valid() && |pos| == |info| && p < |info| && q < |info| && pos[p] < pos[q]
      modifies this`data, this`calls
      ensures Valid() && DataEvolved(cmp, old(data), data)
      ensures if lower then View(cmp, pos).Before(p, q) else View(cmp, pos).Before(q, p)
    {
      assert p != q;
      var r := Compare(cmp, info[p], info[q]);
      lower := r <= 0;
    }

    // Whether the next element comes from the first run. If both have elements, their first ones are compared.
    method Decide(cmp: Cmp, p: int, psize: nat, q: int, qsize: nat,
                  ghost pos: seq<int>, ghost m: seq<nat>, ghost p1: seq<nat>, ghost q1: seq<nat>, ghost rest: seq<nat>)
      returns (fromP: bool)
      requires Valid() && |pos| == |info| && Merging(View(cmp, pos), m, p1, q1)
      requires Inner(next, p1) && Inner(next, q1 + rest)
      requires psize == |p1| && (p1 != [] ==> p == p1[0])
      requires |q1| <= qsize && (|q1| < qsize ==> rest == []) && q == Head(q1 + rest)
      requires p1 != [] || q1 != []
      modifies this`data, this`calls
      ensures Valid() && DataEvolved(cmp, old(data), data) && Merging(View(cmp, pos), m, p1, q1)
      ensures fromP ==> p1 != [] && (q1 != [] ==> View(cmp, pos).Before(p1[0], q1[0]))
      ensures !fromP ==> q1 != [] && (p1 != [] ==> View(cmp, pos).Before(q1[0], p1[0]))
    {
      hide Cells.Before;
      ghost var c := View(cmp, pos);
      if psize == 0 {
        fromP := false;
      } else if qsize == 0 || q == NULL {
        fromP := true;
      } else {
        assert (q1 + rest)[0] == q1[0];
        assert pos[p1[0]] < pos[q1[0]];
        hide Merging;
        fromP := FirstIsLower(cmp, p, q, pos);
        MergingKept(c, data, m, p1, q1);
      }
    }

    // A merge in progress: 'm' has been merged behind 'out', 'p1' and 'q1' are left of the two runs.
    ghost predicate InMerge(cmp: Cmp, pos: seq<int>, out: seq<nat>, m: seq<nat>, p1: seq<nat>, q1: seq<nat>,
                            rest: seq<nat>,
                            list: int, tail: int, p: int, psize: nat, q: int, qsize: nat)
      reads this
    {
      && Valid() && |pos| == |info|
      && Linked(next, out + m, p1, q1, rest) && Merging(View(cmp, pos), m, p1, q1)
      && psize == |p1| && (p1 != [] ==> p == p1[0])
      && |q1| <= qsize && (|q1| < qsize ==> rest == []) && q == Head(q1 + rest)
      && list == Head(out + m) && tail == (if out + m == [] then NULL else (out + m)[|out + m| - 1])
    }

    lemma MergeGuard(cmp: Cmp, pos: seq<int>, out: seq<nat>, m: seq<nat>, p1: seq<nat>, q1: seq<nat>, rest: seq<nat>,
                     list: int, tail: int, p: int, psize: nat, q: int, qsize: nat)
      requires InMerge(cmp, pos, out, m, p1, q1, rest, list, tail, p, psize, q, qsize)
      ensures psize > 0 || (qsize > 0 && q != NULL) <==> p1 != [] || q1 != []
    {
      hide Linked, Merging;
    }

    // The first run gives the next element.
    method TakeFirst(cmp: Cmp, list: int, tail: int, p: int, psize: nat, q: int, qsize: nat, ghost pos: seq<int>,
                     ghost out: seq<nat>, ghost m: seq<nat>, ghost p1: seq<nat>, ghost q1: seq<nat>,
                     ghost rest: seq<nat>)
      returns (list': int, p': int)
      requires InMerge(cmp, pos, out, m, p1, q1, rest, list, tail, p, psize, q, qsize) && p1 != []
      requires q1 != [] ==> View(cmp, pos).Before(p1[0], q1[0])
      modifies this`next
      ensures InMerge(cmp, pos, out, m + [p1[0]], p1[1..], q1, rest, list', p, p', psize - 1, q, qsize)
      ensures multiset(m + [p1[0]]) + multiset(p1[1..]) == multiset(m) + multiset(p1)
    {
      hide Separate, Merging, Cells.Before, Chain;
      StepP(next, View(cmp, pos), out, m, p1, q1, rest);
      assert out + (m + [p1[0]]) == (out + m) + [p1[0]];
      p' := next[p];
      list' := Link(list, tail, p, out + m);
    }

    // The second run gives the next element.
    method TakeSecond(cmp: Cmp, list: int, tail: int, p: int, psize: nat, q: int, qsize: nat, ghost pos: seq<int>,
                      ghost out: seq<nat>, ghost m: seq<nat>, ghost p1: seq<nat>, ghost q1: seq<nat>,
                      ghost rest: seq<nat>)
      returns (list': int, q': int)
      requires InMerge(cmp, pos, out, m, p1, q1, rest, list, tail, p, psize, q, qsize) && q1 != []
      requires p1 != [] ==> View(cmp, pos).Before(q1[0], p1[0])
      modifies this`next
      ensures InMerge(cmp, pos, out, m + [q1[0]], p1, q1[1..], rest, list', q, p, psize, q', qsize - 1)
      ensures multiset(m + [q1[0]]) + multiset(q1[1..]) == multiset(m) + multiset(q1)
    {
      hide Separate, Merging, Cells.Before, Chain;
      StepQ(next, View(cmp, pos), out, m, p1, q1, rest);
      assert out + (m + [q1[0]]) == (out + m) + [q1[0]];
      assert (q1 + rest)[0] == q1[0];
      q' := next[q];
      list' := Link(list, tail, q, out + m);
    }

    method MergeStep(cmp: Cmp, list: int, tail: int, p: int, psize: nat, q: int, qsize: nat, ghost pos: seq<int>,
                     ghost out: seq<nat>, ghost m: seq<nat>, ghost p1: seq<nat>, ghost q1: seq<nat>,
                     ghost rest: seq<nat>)
      returns (list': int, tail': int, p': int, psize': nat, q': int, qsize': nat,
               ghost m': seq<nat>, ghost p1': seq<nat>, ghost q1': seq<nat>)
      requires InMerge(cmp, pos, out, m, p1, q1, rest, list, tail, p, psize, q, qsize) && (p1 != [] || q1 != [])
      modifies this`next, this`data, this`calls
      ensures InMerge(cmp, pos, out, m', p1', q1', rest, list', tail', p', psize', q', qsize')
      ensures DataEvolved(cmp, old(data), data) && |p1'| + |q1'| < |p1| + |q1|
      ensures multiset(m') + multiset(p1') + multiset(q1') == multiset(m) + multiset(p1) + multiset(q1)
    {
      hide Linked, Merging, Cells.Before, DataEvolved;
      assert Inner(next, p1) && Inner(next, q1 + rest) by { LinkedInner(next, out + m, p1, q1, rest); }
      hide Inner;
      p', psize', q', qsize', p1', q1' := p, psize, q, qsize, p1, q1;
      var fromP := Decide(cmp, p, psize, q, qsize, pos, m, p1, q1, rest);
      assert InMerge(cmp, pos, out, m, p1, q1, rest, list, tail, p, psize, q, qsize);
      assert q1 != [] ==> (q1 + rest)[0] == q1[0];
      assert (p1 != [] ==> psize > 0 && p == p1[0]) && (q1 != [] ==> qsize > 0 && q == q1[0]);
      hide InMerge;
      if fromP {
        list', p' := TakeFirst(cmp, list, tail, p, psize, q, qsize, pos, out, m, p1, q1, rest);
        tail', psize', m', p1' := p, psize - 1, m + [p1[0]], p1[1..];
      } else {
        list', q' := TakeSecond(cmp, list, tail, p, psize, q, qsize, pos, out, m, p1, q1, rest);
        tail', qsize', m', q1' := q, qsize - 1, m + [q1[0]], q1[1..];
        Reassociate(multiset(m), multiset(p1), multiset(q1), multiset(m'), multiset(q1'));
      }
    }

    lemma LinkedInner(next: seq<int>, w: seq<nat>, p: seq<nat>, q: seq<nat>, r: seq<nat>)
      requires Linked(next, w, p, q, r)
      ensures Inner(next, p) && Inner(next, q + r)
    {}

    static lemma Reassociate(m: multiset<nat>, p: multiset<nat>, q: multiset<nat>, m': multiset<nat>, q': multiset<nat>)
      requires m' + q' == m + q
      ensures m' + p + q' == m + p + q
    {
      assert m' + p + q' == (m' + q') + p;
      assert m + p + q == (m + q) + p;
    }

    // Two adjacent runs are merged behind the nodes 'out' that have been merged before.
    method Merge(cmp: Cmp, p0: nat, q0: int, psize0: nat, qsize0: nat, list0: int, tail0: int,
                 ghost pos: seq<int>, ghost out: seq<nat>, ghost run1: seq<nat>, ghost run2: seq<nat>,
                 ghost rest: seq<nat>)
      returns (list: int, tail: int, q: int, ghost merged: seq<nat>)
      requires InMerge(cmp, pos, out, [], run1, run2, rest, list0, tail0, p0, psize0, q0, qsize0)
      modifies this`next, this`data, this`calls
      ensures Valid() && DataEvolved(cmp, old(data), data)
      ensures multiset(merged) == multiset(run1) + multiset(run2) && View(cmp, pos).Sorted(merged)
      ensures Linked(next, out + merged, [], [], rest) && list == Head(out + merged) && q == Head(rest)
      ensures tail == if out + merged == [] then NULL else (out + merged)[|out + merged| - 1]
    {
      hide InMerge, DataEvolved;
      list, tail, q, merged := list0, tail0, q0, [];
      var p: int, psize, qsize := p0, psize0, qsize0;
      ghost var p1, q1 := run1, run2;
      EvolvedSame(cmp, data);
      MergeGuard(cmp, pos, out, merged, p1, q1, rest, list, tail, p, psize, q, qsize);
      while psize > 0 || (qsize > 0 && q != NULL)
        invariant DataEvolved(cmp, old(data), data)
        invariant InMerge(cmp, pos, out, merged, p1, q1, rest, list, tail, p, psize, q, qsize)
        invariant psize > 0 || (qsize > 0 && q != NULL) <==> p1 != [] || q1 != []
        invariant multiset(merged) + multiset(p1) + multiset(q1) == multiset(run1) + multiset(run2)
        decreases |p1| + |q1|
      {
        ghost var d := data;
        list, tail, p, psize, q, qsize, merged, p1, q1 :=
          MergeStep(cmp, list, tail, p, psize, q, qsize, pos, out, merged, p1, q1, rest);
        EvolvedTrans(cmp, old(data), d, data);
        MergeGuard(cmp, pos, out, merged, p1, q1, rest, list, tail, p, psize, q, qsize);
      }
      Merged(cmp, pos, out, merged, rest, list, tail, p, psize, q, qsize);
    }

    lemma Merged(cmp: Cmp, pos: seq<int>, out: seq<nat>, m: seq<nat>, rest: seq<nat>,
                 list: int, tail: int, p: int, psize: nat, q: int, qsize: nat)
      requires InMerge(cmp, pos, out, m, [], [], rest, list, tail, p, psize, q, qsize)
      ensures Valid() && View(cmp, pos).Sorted(m)
      ensures Linked(next, out + m, [], [], rest) && list == Head(out + m) && q == Head(rest)
      ensures tail == if out + m == [] then NULL else (out + m)[|out + m| - 1]
    {
      assert [] + rest == rest;
    }

    // Steps 'insize' places along from 'p', or to the end.
    method SkipRun(p: nat, insize: nat, ghost s: seq<nat>) returns (q: int, psize: nat)
      requires Chain(next, s) && s != [] && p == s[0] && insize > 0
      ensures psize == (if |s| < insize then |s| else insize) && q == Head(s[psize..])
    {
      q, psize := p, 0;
      for i := 0 to insize
        invariant psize == i && psize < |s| + (if i == 0 then 0 else 1) && (psize < |s| ==> q == s[psize])
        invariant i > 0 ==> psize < |s|
      {
        psize := psize + 1;
        assert q == s[i] && (i + 1 < |s| ==> next[s[i]] == s[i + 1]);
        q := next[q];
        if q == NULL {
          break;
        }
      }
      assert psize < |s| ==> s[psize..][0] == s[psize];
    }

    // A pass in progress: the runs 'done' have been merged, the runs 'todo' have not.
    ghost predicate InPass(cmp: Cmp, pos: seq<int>, n: nat, done: seq<seq<nat>>, todo: seq<seq<nat>>, list: int,
      tail: int, p: int)
      reads this
    {
      && Valid() && |pos| == |info| && n > 0
      && Linked(next, Flat(done), [], [], Flat(todo))
      && RunsOk(View(cmp, pos), done, 2 * n) && RunsOk(View(cmp, pos), todo, n)
      && (todo != [] ==> Full(done, 2 * n)) && View(cmp, pos).PosBelow(Flat(done), Flat(todo))
      && list == Head(Flat(done)) && p == Head(Flat(todo))
      && tail == (if Flat(done) == [] then NULL else Flat(done)[|Flat(done)| - 1])
    }

    // The first run that is left, the second one if there is one, and the rest.
    static function Second(todo: seq<seq<nat>>): seq<nat>
      requires todo != []
    {
      if |todo| > 1 then todo[1] else []
    }

    static function Remaining(todo: seq<seq<nat>>): seq<seq<nat>>
      requires todo != []
    {
      if |todo| > 1 then todo[2..] else []
    }

    static lemma FlatFirstTwo(todo: seq<seq<nat>>)
      requires todo != []
      ensures Flat(todo) == todo[0] + (Second(todo) + Flat(Remaining(todo)))
    {
      if |todo| > 1 {
        assert todo[1..][1..] == todo[2..];
      } else {
        assert todo[1..] == [];
      }
    }

    // What is known of the next two runs.
    lemma TwoRuns(c: Cells, todo: seq<seq<nat>>, n: nat)
      requires todo != [] && RunsOk(c, todo, n) && n > 0
      ensures var p, q, r := todo[0], Second(todo), Flat(Remaining(todo));
        && p != [] && |p| <= n && (|p| < n ==> q == [] && r == []) && |q| <= n && (|q| < n ==> r == [])
        && Merging(c, [], p, q) && c.PosBelow(p, r) && c.PosBelow(q, r) && RunsOk(c, Remaining(todo), n)
    {
      hide Cells.Before;
      if |todo| > 1 {
        assert todo[1..][1..] == todo[2..] && todo[1..][0] == todo[1];
        PosBelowParts(c, todo[0], todo[1], Flat(todo[2..]));
      } else {
        assert todo[1..] == [];
      }
    }

    lemma StartMerge(cmp: Cmp, pos: seq<int>, n: nat, done: seq<seq<nat>>, todo: seq<seq<nat>>,
                     list: int, tail: int, p: int, q: int, psize: nat)
      requires InPass(cmp, pos, n, done, todo, list, tail, p) && todo != []
      requires psize == (if |Flat(todo)| < n then |Flat(todo)| else n) && q == Head(Flat(todo)[psize..])
      ensures InMerge(cmp, pos, Flat(done), [], todo[0], Second(todo), Flat(Remaining(todo)), list, tail, p, psize, q,
        n)
    {
      hide Linked, Merging, Below, Full, Cells.Sorted;
      var out, run1, run2, rest := Flat(done), todo[0], Second(todo), Flat(Remaining(todo));
      FlatFirstTwo(todo);
      TwoRuns(View(cmp, pos), todo, n);
      hide RunsOk, Flat, Remaining, Second;
      SplitLinked(next, out, run1, run2, rest);
      assert out + [] == out && Flat(todo)[|run1|..] == run2 + rest;
    }

    // The merged run takes the place of the two.
    lemma EndBelow(c: Cells, done: seq<seq<nat>>, todo: seq<seq<nat>>, n: nat, m: seq<nat>)
      requires RunsOk(c, todo, n) && todo != [] && n > 0 && c.PosBelow(Flat(done), Flat(todo))
      requires multiset(m) == multiset(todo[0]) + multiset(Second(todo))
      ensures c.PosBelow(Flat(done), m) && c.PosBelow(Flat(done + [m]), Flat(Remaining(todo)))
      ensures Flat(done + [m]) == Flat(done) + m && RunsOk(c, Remaining(todo), n)
    {
      var p, q, r := todo[0], Second(todo), Flat(Remaining(todo));
      FlatFirstTwo(todo);
      TwoRuns(c, todo, n);
      FlatAppend(done, m);
      hide Merging, Flat, RunsOk, Second, Remaining;
      PosBelowParts(c, Flat(done), p, q + r);
      PosBelowParts(c, Flat(done), q, r);
      PosAboveMerged(c, Flat(done), m, p, q);
      PosBelowMerged(c, m, p, q, r);
      PosBelowParts(c, r, Flat(done), m);
    }

    static lemma SameSize(m: seq<nat>, s: seq<nat>, t: seq<nat>)
      requires multiset(m) == multiset(s) + multiset(t)
      ensures |m| == |s| + |t|
    {
      assert |multiset(m)| == |multiset(s)| + |multiset(t)|;
    }

    lemma EndMerge(c: Cells, data': seq<ListData>, n: nat, done: seq<seq<nat>>, todo: seq<seq<nat>>, m: seq<nat>)
      requires DataEvolved(c.cmp, c.data, data') && n > 0
      requires RunsOk(c, done, 2 * n) && RunsOk(c, todo, n) && Full(done, 2 * n) && todo != []
      requires c.PosBelow(Flat(done), Flat(todo)) && c.(data := data').Sorted(m)
      requires multiset(m) == multiset(todo[0]) + multiset(Second(todo))
      ensures var c' := c.(data := data');
        && RunsOk(c', done + [m], 2 * n) && RunsOk(c', Remaining(todo), n)
        && c'.PosBelow(Flat(done + [m]), Flat(Remaining(todo)))
      ensures Flat(done + [m]) == Flat(done) + m && (Remaining(todo) != [] ==> Full(done + [m], 2 * n))
    {
      hide Merging, Cells.Sorted, Cells.Before, Cells.AllBefore, Below, DataEvolved, Flat;
      var p, q, c' := todo[0], Second(todo), c.(data := data');
      EndBelow(c, done, todo, n, m);
      TwoRuns(c, todo, n);
      SameSize(m, p, q);
      FullEnough(c, todo, n);
      hide Second, Remaining;
      RunsKept(c, data', done, 2 * n);
      RunsKept(c, data', Remaining(todo), n);
      hide RunsOk;
      RunsAppend(c', done, m, 2 * n);
    }

    // Only the last run may be short.
    lemma FullEnough(c: Cells, todo: seq<seq<nat>>, n: nat)
      requires todo != [] && RunsOk(c, todo, n)
      ensures Remaining(todo) != [] ==> |todo[0]| == n && |Second(todo)| == n
    {
      if |todo| > 2 {
        assert todo[1..][0] == todo[1];
      }
    }

    static lemma CountMoved(done: seq<nat>, todo: seq<nat>, m: seq<nat>, p: seq<nat>, q: seq<nat>, r: seq<nat>)
      requires todo == p + (q + r) && multiset(m) == multiset(p) + multiset(q)
      ensures multiset(done + m) + multiset(r) == multiset(done) + multiset(todo)
    {
      assert multiset(q + r) == multiset(q) + multiset(r);
    }

    lemma NothingLeft(todo: seq<seq<nat>>, c: Cells, n: nat)
      requires RunsOk(c, todo, n)
      ensures Head(Flat(todo)) == NULL <==> todo == []
    {}

    // The next two runs of a pass are merged.
    method PassStep(cmp: Cmp, p: nat, insize: nat, list: int, tail: int,
                    ghost pos: seq<int>, ghost done: seq<seq<nat>>, ghost todo: seq<seq<nat>>)
      returns (list': int, tail': int, p': int, ghost m: seq<nat>)
      requires InPass(cmp, pos, insize, done, todo, list, tail, p) && todo != []
      modifies this`next, this`data, this`calls
      ensures InPass(cmp, pos, insize, done + [m], Remaining(todo), list', tail', p')
      ensures DataEvolved(cmp, old(data), data)
      ensures multiset(Flat(done + [m])) + multiset(Flat(Remaining(todo))) ==
        multiset(Flat(done)) + multiset(Flat(todo))
    {
      hide InMerge, Merging, Cells.Sorted, Below, RunsOk, Full, DataEvolved, Second, Remaining, Separate;
      FlatFirstTwo(todo);
      hide Flat;
      ghost var c := View(cmp, pos);
      assert [] + Flat(todo) == Flat(todo);
      NonEmpty(todo, c, insize);
      var q, psize := SkipRun(p, insize, Flat(todo));
      StartMerge(cmp, pos, insize, done, todo, list, tail, p, q, psize);
      hide Linked;
      list', tail', p', m := Merge(cmp, p, q, psize, insize, list, tail, pos,
                                   Flat(done), todo[0], Second(todo), Flat(Remaining(todo)));
      EndMerge(c, data, insize, done, todo, m);
      CountMoved(Flat(done), Flat(todo), m, todo[0], Second(todo), Flat(Remaining(todo)));
    }

    lemma NonEmpty(todo: seq<seq<nat>>, c: Cells, n: nat)
      requires RunsOk(c, todo, n) && todo != []
      ensures Flat(todo) != []
    {}

    // All runs are merged in pairs. Without any the end mark would be stored through a null pointer.
    method Pass(cmp: Cmp, list0: int, insize: nat, ghost pos: seq<int>, ghost runs: seq<seq<nat>>)
      returns (ok: bool, list: int, nmerges: nat, ghost done: seq<seq<nat>>)
      requires InPass(cmp, pos, insize, [], runs, NULL, NULL, list0)
      modifies this`next, this`data, this`calls
      ensures ok <==> runs != []
      ensures !ok ==> next == old(next) && data == old(data) && calls == old(calls)
      ensures Valid() && DataEvolved(cmp, old(data), data)
      ensures ok ==> Chain(next, Flat(done)) && Distinct(Flat(done)) && list == Head(Flat(done))
      ensures ok ==> RunsOk(View(cmp, pos), done, 2 * insize) && multiset(Flat(done)) == multiset(Flat(runs))
      ensures nmerges == |done| && (|runs| > 1 ==> nmerges < |runs|) && (|runs| == 1 ==> nmerges == 1)
    {
      hide Merging, Cells.Sorted, Below, RunsOk, Full, DataEvolved, Flat, InPass;
      var p, tail := list0, NULL;
      list, nmerges, done := NULL, 0, [];
      ghost var todo := runs;
      EvolvedSame(cmp, data);
      PassGuard(cmp, pos, insize, done, todo, list, tail, p);
      while p != NULL
        invariant DataEvolved(cmp, old(data), data)
        invariant InPass(cmp, pos, insize, done, todo, list, tail, p)
        invariant p == NULL <==> todo == []
        invariant todo != [] ==> p >= 0
        invariant multiset(Flat(done)) + multiset(Flat(todo)) == multiset(Flat(runs))
        invariant nmerges == |done| && |runs| <= 2 * nmerges + |todo| <= |runs| + 1
        invariant todo != [] ==> 2 * nmerges + |todo| == |runs|
        invariant runs == [] ==> tail == NULL && next == old(next) && data == old(data) && calls == old(calls)
        decreases |todo|
      {
        ghost var d := data;
        nmerges := nmerges + 1;
        ghost var m;
        list, tail, p, m := PassStep(cmp, p, insize, list, tail, pos, done, todo);
        done, todo := done + [m], Remaining(todo);
        EvolvedTrans(cmp, old(data), d, data);
        PassGuard(cmp, pos, insize, done, todo, list, tail, p);
      }
      if done != [] {
        LastLink(cmp, pos, insize, done, list, tail, p);
      }
      ok := tail != NULL;
      if ok {
        next := next[tail := NULL];
      }
    }

    lemma PassGuard(cmp: Cmp, pos: seq<int>, n: nat, done: seq<seq<nat>>, todo: seq<seq<nat>>, list: int, tail: int,
      p: int)
      requires InPass(cmp, pos, n, done, todo, list, tail, p)
      ensures p == NULL <==> todo == []
      ensures p != NULL ==> p >= 0
      ensures Valid() && Flat([]) == []
    {
      NothingLeft(todo, View(cmp, pos), n);
    }

    // At the end of a pass all nodes are merged, and the last one gets the end mark.
    lemma LastLink(cmp: Cmp, pos: seq<int>, n: nat, done: seq<seq<nat>>, list: int, tail: int, p: int)
      requires InPass(cmp, pos, n, done, [], list, tail, p) && done != []
      ensures Valid() && RunsOk(View(cmp, pos), done, 2 * n) && list == Head(Flat(done))
      ensures 0 <= tail < |next| && Chain(next[tail := NULL], Flat(done)) && Distinct(Flat(done))
    {
      NonEmpty(done, View(cmp, pos), 2 * n);
    }

    // The list 's' is sorted in place. The result 't' has exactly the same nodes, is in order of the keys and keeps
    // the order of nodes with equal keys. This fails, by a store through a null pointer, exactly on the empty list.
    method Mergesort(cmp: Cmp, list0: int, ghost s: seq<nat>) returns (ok: bool, list: int, ghost t: seq<nat>)
      requires Valid() && Chain(next, s) && Distinct(s) && list0 == Head(s)
      modifies this`next, this`data, this`calls
      ensures ok <==> s != []
      ensures !ok ==> next == old(next) && data == old(data) && calls == old(calls)
      ensures Valid() && DataEvolved(cmp, old(data), data)
      ensures ok ==> Chain(next, t) && Distinct(t) && list == Head(t) && multiset(t) == multiset(s)
      ensures ok ==> View(cmp, Positions(s, |info|)).Sorted(t)
    {
      hide InPass, Cells.Sorted, RunsOk, DataEvolved, Flat, Positions, Chain, Distinct;
      ghost var pos := Positions(s, |info|);
      ghost var runs := StartSort(cmp, s);
      list := list0;
      EvolvedSame(cmp, data);
      var insize: nat := 1;
      while true
        invariant Valid() && DataEvolved(cmp, old(data), data)
        invariant insize > 0 && InPass(cmp, pos, insize, [], runs, NULL, NULL, list) && (runs == [] <==> s == [])
        invariant multiset(Flat(runs)) == multiset(s)
        invariant runs == [] ==> next == old(next) && data == old(data) && calls == old(calls)
        decreases |runs|
      {
        ghost var d := data;
        var nmerges;
        ok, list, nmerges, runs := Pass(cmp, list, insize, pos, runs);
        EvolvedTrans(cmp, old(data), d, data);
        if !ok {
          t := [];
          return;
        }
        if nmerges <= 1 {
          t := Flat(runs);
          OneRun(View(cmp, pos), runs, 2 * insize);
          return;
        }
        NextPass(cmp, pos, 2 * insize, runs);
        insize := insize * 2;
      }
    }

    lemma OneRun(c: Cells, runs: seq<seq<nat>>, n: nat)
      requires RunsOk(c, runs, n) && |runs| == 1
      ensures c.Sorted(Flat(runs)) && Flat(runs) != []
    {
      assert runs[1..] == [] && Flat(runs) == runs[0] + [] == runs[0];
    }

    lemma NextPass(cmp: Cmp, pos: seq<int>, n: nat, runs: seq<seq<nat>>)
      requires Valid() && |pos| == |info| && n > 0
      requires Chain(next, Flat(runs)) && Distinct(Flat(runs)) && RunsOk(View(cmp, pos), runs, n)
      ensures InPass(cmp, pos, n, [], runs, NULL, NULL, Head(Flat(runs)))
    {
      hide Cells.Sorted, Cells.Before, Evolved;
      var s := Flat(runs);
      assert [] + s == s && Flat([]) == [];
      StartLinked(next, s);
      hide Chain, Distinct, Linked, Flat;
    }

    static lemma StartLinked(next: seq<int>, s: seq<nat>)
      requires Chain(next, s) && Distinct(s)
      ensures Linked(next, [], [], [], s)
    {
      assert [] + s == s;
    }

    // Every node is a sorted run of its own.
    lemma StartSort(cmp: Cmp, s: seq<nat>) returns (runs: seq<seq<nat>>)
      requires Valid() && Chain(next, s) && Distinct(s)
      ensures InPass(cmp, Positions(s, |info|), 1, [], runs, NULL, NULL, Head(s)) && (runs == [] <==> s == [])
      ensures Flat(runs) == s
    {
      var pos := Positions(s, |info|);
      PositionsAscend(s, |info|);
      runs := Singles(s);
      SinglesOk(View(cmp, pos), s);
      NextPass(cmp, pos, 1, runs);
    }

    // ---------- The benchmark ----------

    // The first wanted node, or NULL.
    method Find(list: int, idx: int, lo: int, ghost s: seq<nat>) returns (r: int, ghost k: nat)
      requires Valid() && Chain(next, s) && list == Head(s)
      ensures k <= |s| && r == Head(s[k..]) && (k < |s| ==> r == s[k] && Wanted(data[info[s[k]]], idx, lo))
      ensures forall i | 0 <= i < k :: !Wanted(data[info[s[i]]], idx, lo)
      ensures r == NULL <==> forall x | x in s :: x < |info| && !Wanted(data[info[x]], idx, lo)
      ensures r != NULL ==> r in s && r < |info| && Wanted(data[info[r]], idx, lo)
    {
      r, k := list, 0;
      while r != NULL && !Wanted(data[info[r]], idx, lo)
        invariant k <= |s| && r == Head(s[k..]) && (k < |s| ==> r == s[k])
        invariant forall i | 0 <= i < k :: !Wanted(data[info[s[i]]], idx, lo)
        decreases |s| - k
      {
        assert k + 1 < |s| ==> next[s[k]] == s[k + 1];
        r := next[r];
        k := k + 1;
      }
    }

    method Reverse(list: int, ghost s: seq<nat>) returns (r: int)
      requires Chain(next, s) && Distinct(s) && list == Head(s)
      modifies this`next
      ensures |next| == |old(next)| && Chain(next, Reversed(s)) && r == Head(Reversed(s))
    {
      r := NULL;
      var l := list;
      ghost var done, todo := [], s;
      assert Reversing(next, done, todo) && Reversed(todo) + done == Reversed(s);
      hide Reversing, Reversed;
      while l != NULL
        invariant |next| == |old(next)| && Reversing(next, done, todo)
        invariant r == Head(done) && l == Head(todo) && Reversed(todo) + done == Reversed(s)
        decreases |todo|
      {
        ReversingStep(next, done, todo);
        var tmp := next[l];
        next := next[l := r];
        r := l;
        l := tmp;
        done, todo := [todo[0]] + done, todo[1..];
      }
      ReversalDone(next, done, s);
    }

    static lemma ReversalDone(next: seq<int>, done: seq<nat>, s: seq<nat>)
      requires Reversing(next, done, []) && Reversed([]) + done == Reversed(s)
      ensures Chain(next, Reversed(s)) && done == Reversed(s)
    {}

    // The node behind 'f' is moved behind the head of the list.
    method CacheNext(f: nat, list: nat, ghost u: seq<nat>, ghost k: nat)
      requires Chain(next, u) && Distinct(u) && k + 1 < |u| && f == u[k] && list == u[0]
      modifies this`next
      ensures |next| == |old(next)| && Chain(next, MovedToFront(u, k))
    {
      assert next[u[k]] == u[k + 1];
      if k == 0 {
        RelinkedSame(next, u);
      } else {
        RelinkedMoves(next, u, k);
      }
      hide Chain, Distinct;
      var finder := next[f];
      next := next[f := next[finder]];
      next := next[finder := next[list]];
      next := next[list := finder];
    }

    // An item is removed by taking over the data of the next one, which is unlinked.
    method Remove(item: nat) returns (ret: nat)
      requires item < |next| == |info| && 0 <= next[item] < |next|
      modifies this`next, this`info
      ensures ret == old(next)[item]
      ensures info == old(info)[item := old(info)[ret]][ret := old(info)[item]]
      ensures next == old(next)[item := old(next)[ret]][ret := NULL]
    {
      ret := next[item];
      var tmp := info[item];
      info := info[item := info[ret]];
      info := info[ret := tmp];
      next := next[item := next[next[item]]];
      next := next[ret := NULL];
    }

    method UndoRemove(removed: nat, modified: nat)
      requires removed < |next| == |info| && modified < |next|
      modifies this`next, this`info
      ensures info == old(info)[removed := old(info)[modified]][modified := old(info)[removed]]
      ensures next == old(next)[removed := old(next)[modified]][modified := removed]
    {
      var tmp := info[removed];
      info := info[removed := info[modified]];
      info := info[modified := tmp];
      next := next[removed := next[modified]];
      next := next[modified := removed];
    }

    // What follows the found node is moved to the front.
    method MoveFollower(f: nat, list: nat, ghost u: seq<nat>, ghost j: nat) returns (ghost v: seq<nat>)
      requires Valid() && Chain(next, u) && Distinct(u) && j < |u| && f == u[j] && list == u[0]
      modifies this`next
      ensures Valid() && Chain(next, v) && v == if j + 1 < |u| then MovedToFront(u, j) else u
    {
      v := u;
      assert j + 1 < |u| ==> next[u[j]] == u[j + 1];
      if next[f] != NULL {
        CacheNext(f, list, u, j);
        v := MovedToFront(u, j);
      }
    }

    // One search of the benchmark: the list is reversed, and what follows a found node is moved to the front.
    method FindAndReverse(list: nat, idx: int, lo: int, ghost u: seq<nat>)
      returns (list': nat, found: bool, ghost k: nat, ghost v: seq<nat>)
      requires Valid() && Chain(next, u) && Distinct(u) && |u| > 1 && list == u[0]
      modifies this`next
      ensures Valid() && Chain(next, v) && Distinct(v) && multiset(v) == multiset(u) && |v| == |u| && list' == v[0]
      ensures k <= |u| && v == Searched(u, k) && (found <==> k < |u|)
      ensures forall i | 0 <= i < |u| && i <= k :: u[i] < |info| && (Wanted(data[info[u[i]]], idx, lo) <==> i == k)
    {
      var thisFind;
      thisFind, k := Find(list, idx, lo, u);
      found := thisFind != NULL;
      assert found ==> thisFind == u[k];
      assert forall i | 0 <= i < |u| :: u[i] < |info|;
      hide Chain, Wanted;
      list' := Reverse(list, u);
      v := Reversed(u);
      DistinctSame(u, v);
      if found {
        ReversedAt(u, k);
        hide Distinct, Reversed;
        v := MoveFollower(thisFind, list', v, |u| - 1 - k);
        SearchedSame(u, k);
        DistinctSame(u, v);
      }
    }

    static lemma MovedShape(u: seq<nat>, k: nat)
      requires k + 1 < |u|
      ensures |MovedToFront(u, k)| == |u| && MovedToFront(u, k)[0] == u[0]
    {}

    static lemma SearchedSame(u: seq<nat>, k: nat)
      requires k <= |u|
      ensures multiset(Searched(u, k)) == multiset(u) && |Searched(u, k)| == |u|
      ensures u != [] ==> Searched(u, k)[0] == Reversed(u)[0]
    {
      hide Reversed, MovedToFront;
      var r := Reversed(u);
      if 0 < k < |u| {
        MovedSame(r, |u| - 1 - k);
        MovedShape(r, |u| - 1 - k);
      }
    }

    // The traversal that computes a checksum ends.
    method Traverse(p: int, ghost t: seq<nat>, ghost k: nat) returns (n: nat)
      requires Valid() && Chain(next, t) && k <= |t| && p == Head(t[k..])
      ensures n == |t| - k
    {
      n := 0;
      var finder := p;
      while finder != NULL
        invariant n <= |t| - k && finder == Head(t[k + n..])
        decreases |t| - k - n
      {
        assert k + n + 1 < |t| ==> next[t[k + n]] == t[k + n + 1];
        finder := next[finder];
        n := n + 1;
      }
    }

    // The second node is removed, the list is searched and traversed, and the node is put back.
    method RemoveAndUndo(list: nat, idx: int, lo: int, ghost u: seq<nat>)
      requires Valid() && Chain(next, u) && Distinct(u) && |u| > 2 && list == u[0]
      modifies this`next, this`info
      ensures next == old(next) && info == old(info)
    {
      assert next[u[0]] == u[1] && next[u[1]] == u[2] && u[0] != u[1] && u[0] != u[2] && u[1] != u[2];
      hide Chain, Distinct, Wanted;
      var remover := Remove(next[list]);
      ghost var t := [u[0], u[1]] + u[3..];
      Unlinked(old(next), next, u);
      RemoveUndone(old(next), old(info), u[1], u[2]);
      var finder, k := Find(list, idx, lo, t);
      if finder == NULL {
        finder, k := next[list], 1;
      }
      var n := Traverse(finder, t, k);
      UndoRemove(remover, next[list]);
    }

    static lemma RemoveUndone(next: seq<int>, info: seq<nat>, x: nat, y: nat)
      requires |next| == |info| && x < |next| && y < |next| && next[x] == y && x != y
      ensures var n := next[x := next[y]][y := NULL]; n[y := n[x]][x := y] == next
      ensures var i := info[x := info[y]][y := info[x]]; i[y := i[x]][x := i[y]] == info
    {}

    static lemma Unlinked(next: seq<int>, next': seq<int>, u: seq<nat>)
      requires Chain(next, u) && Distinct(u) && |u| > 2 && next' == next[u[1] := next[u[2]]][u[2] := NULL]
      ensures Chain(next', [u[0], u[1]] + u[3..]) && next'[u[0]] == u[1]
    {
      var t := [u[0], u[1]] + u[3..];
      assert next[u[0]] == u[1];
      assert forall i | 2 <= i < |t| :: t[i] == u[i + 1];
      assert |u| > 3 ==> next[u[2]] == u[3];
    }

    // At the end the list is back in its original state: the same nodes in the same order with the same data.
    method BenchList(list: nat, finderIdx: int, findNum: int, lo0: int, ghost s: seq<nat>)
      returns (found: nat, missed: nat)
      requires Valid() && Chain(next, s) && Distinct(s) && |s| > 2 && list == s[0] && Initialised(info, data, s)
      modifies this`next, this`info, this`data, this`calls
      ensures Valid() && Chain(next, s) && info == old(info)
      ensures forall x | x in s :: x < |info| && info[x] < |data| == |old(data)| && data[info[x]] == old(data)[info[x]]
      ensures found + missed == if findNum > 0 then findNum else 0
    {
      hide Chain, Distinct, Initialised, Backed, DataEvolved, Cells.Sorted, Positions;
      var l, idx, lo, i := list, finderIdx, lo0, 0;
      ghost var u := s;
      found, missed := 0, 0;
      while i < findNum
        invariant 0 <= i && (findNum >= 0 ==> i <= findNum) && (findNum < 0 ==> i == 0) && found + missed == i
        invariant info == old(info) && data == old(data)
        invariant Valid() && Chain(next, u) && Distinct(u) && multiset(u) == multiset(s) && |u| == |s| && l == u[0]
      {
        lo := i % 0x100;
        var hit;
        ghost var k;
        l, hit, k, u := FindAndReverse(l, idx, lo, u);
        if hit {
          found := found + 1;
        } else {
          missed := missed + 1;
        }
        if idx >= 0 {
          idx := if idx == 0x7fff then -0x8000 else idx + 1;   // a 16-bit index
        }
        i := i + 1;
      }
      SortAndRestore(l, finderIdx, idx, lo, s, u);
    }

    // The list is sorted by data, a node is removed and put back, and the list is sorted by index.
    method SortAndRestore(list: nat, finderIdx: int, idx: int, lo: int, ghost s: seq<nat>, ghost u0: seq<nat>)
      requires Valid() && Chain(next, u0) && Distinct(u0) && |u0| > 2 && list == u0[0]
      requires multiset(u0) == multiset(s) && Initialised(info, data, s)
      modifies this`next, this`info, this`data, this`calls
      ensures Valid() && Chain(next, s) && info == old(info)
      ensures forall x | x in s :: x < |info| && info[x] < |data| == |old(data)| && data[info[x]] == old(data)[info[x]]
    {
      hide Chain, Distinct, Initialised, Evolved, Cells.Sorted, Positions;
      var l: int := list;
      ghost var u := u0;
      assert Backed(data, data);
      if finderIdx > 0 {
        var ok;
        ok, l, u := Mergesort(CmpComplex, l, u);
        EvolvedBacked(CmpComplex, old(data), old(data), data);
        assert |multiset(u)| == |multiset(u0)|;
      }
      RemoveAndUndo(l, idx, lo, u);
      ghost var d, v := data, u;
      hide Backed, DataEvolved;
      var ok;
      ok, l, u := Mergesort(CmpIdx, l, u);
      EvolvedBacked(CmpIdx, old(data), d, data);
      assert |multiset(u)| == |multiset(u0)|;
      IndexSortRestores(View(CmpIdx, Positions(v, |info|)), old(data), s, u);
    }
  }
}
