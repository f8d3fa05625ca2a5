// The breakpoint hash table of the GDB server (orpsocv2/bench/sysc/src/MpHash.cpp).

module MpHashTable {

  datatype Option<T> = None | Some(value: T)

  datatype MpType = BP_MEMORY | BP_HARDWARE | WP_WRITE | WP_READ | WP_ACCESS

  const DEFAULT_MP_HASH_SIZE := 1021

  class MpEntry {
    const mpType: MpType
    const addr: nat
    const instr: nat
    var next: MpEntry?

    constructor (mpType: MpType, addr: nat, instr: nat, next: MpEntry?)
      ensures this.mpType == mpType && this.addr == addr && this.instr == instr && this.next == next
    {
      this.mpType, this.addr, this.instr, this.next := mpType, addr, instr, next;
    }

    predicate Matches(mpType: MpType, addr: nat) {
      mpType == this.mpType && addr == this.addr
    }
  }

  function First(s: seq<MpEntry>): MpEntry? {
    if s == [] then null else s[0]
  }

  // The entries 's' are chained in this order.
  ghost predicate Chained(s: seq<MpEntry>)
    reads s
  {
    && (forall i | 0 <= i < |s| - 1 :: s[i].next == s[i + 1])
    && (s != [] ==> s[|s| - 1].next == null)
  }

  // No two entries have the same key.
  ghost predicate Unique(s: seq<MpEntry>) {
    forall i, j | 0 <= i < j < |s| :: !s[i].Matches(s[j].mpType, s[j].addr)
  }

  // The instruction that the entries 's' associate with a key.
  ghost function Assoc(s: seq<MpEntry>, mpType: MpType, addr: nat): Option<nat> {
    if s == [] then None
    else if s[0].Matches(mpType, addr) then Some(s[0].instr)
    else Assoc(s[1..], mpType, addr)
  }

  lemma {:induction false} AssocNone(s: seq<MpEntry>, mpType: MpType, addr: nat)
    requires forall i | 0 <= i < |s| :: !s[i].Matches(mpType, addr)
    ensures Assoc(s, mpType, addr) == None
  {
    if s != [] {
      AssocNone(s[1..], mpType, addr);
    }
  }

  lemma {:induction false} AssocAt(s: seq<MpEntry>, k: nat)
    requires Unique(s) && k < |s|
    ensures Assoc(s, s[k].mpType, s[k].addr) == Some(s[k].instr)
  {
    if k > 0 {
      assert !s[0].Matches(s[k].mpType, s[k].addr);
      AssocAt(s[1..], k - 1);
    }
  }

  lemma UniqueRemoved(s: seq<MpEntry>, k: nat)
    requires Unique(s) && k < |s|
    ensures Unique(s[..k] + s[k + 1..]) && Unique(s[1..])
    ensures forall i | 0 <= i < |s| && i != k :: !s[i].Matches(s[k].mpType, s[k].addr)
  {
    var t := s[..k] + s[k + 1..];
    assert forall i | 0 <= i < |t| :: t[i] == s[if i < k then i else i + 1];
  }

  // Taking out one entry removes its key and no other.
  lemma {:induction false} AssocRemoved(s: seq<MpEntry>, k: nat, mpType: MpType, addr: nat)
    requires Unique(s) && k < |s|
    ensures Unique(s[..k] + s[k + 1..])
    ensures Assoc(s[..k] + s[k + 1..], mpType, addr) ==
      if s[k].Matches(mpType, addr) then None else Assoc(s, mpType, addr)
  {
    var t := s[..k] + s[k + 1..];
    UniqueRemoved(s, k);
    hide Unique;
    if k == 0 {
      assert t == s[1..];
      if s[0].Matches(mpType, addr) {
        AssocNone(s[1..], mpType, addr);
      }
    } else {
      assert t[1..] == s[1..][..k - 1] + s[1..][k..] && t[0] == s[0];
      AssocRemoved(s[1..], k - 1, mpType, addr);
    }
  }

  // The slot of an address.
  function HashValue(addr: nat, size: nat): (hv: nat)
    requires size > 0
    ensures hv < size
  {
    addr % size
  }

  lemma AssocPushed(e: MpEntry, s: seq<MpEntry>, mpType: MpType, addr: nat)
    ensures Assoc([e] + s, mpType, addr) == if e.Matches(mpType, addr) then Some(e.instr) else Assoc(s, mpType, addr)
  {
    assert ([e] + s)[1..] == s;
  }

  // What the chains of all slots associate with a key.
  ghost function TableGet(chains: seq<seq<MpEntry>>, mpType: MpType, addr: nat): Option<nat>
    requires |chains| > 0
  {
    Assoc(chains[HashValue(addr, |chains|)], mpType, addr)
  }

  lemma TablePushed(chains: seq<seq<MpEntry>>, e: MpEntry, mpType: MpType, addr: nat)
    requires |chains| > 0
    ensures var hv := HashValue(e.addr, |chains|);
      TableGet(chains[hv := [e] + chains[hv]], mpType, addr) ==
      if e.Matches(mpType, addr) then Some(e.instr) else TableGet(chains, mpType, addr)
  {
    AssocPushed(e, chains[HashValue(e.addr, |chains|)], mpType, addr);
    hide Assoc, HashValue;
  }

  lemma TableRemoved(chains: seq<seq<MpEntry>>, hv: nat, k: nat, mpType: MpType, addr: nat)
    requires hv < |chains| && Unique(chains[hv]) && k < |chains[hv]| && HashValue(chains[hv][k].addr, |chains|) == hv
    ensures var s := chains[hv];
      TableGet(chains[hv := s[..k] + s[k + 1..]], mpType, addr) ==
      if s[k].Matches(mpType, addr) then None else TableGet(chains, mpType, addr)
  {
    AssocRemoved(chains[hv], k, mpType, addr);
    hide Assoc, HashValue;
  }

  class MpHash {
    const size: nat
    const hashTab: array<MpEntry?>

    // The chain of each slot, and all entries.
    ghost var chains: seq<seq<MpEntry>>
    ghost var entries: set<MpEntry>

    // Slot 'b' holds the chain 's'.
    ghost predicate Slot(b: nat, s: seq<MpEntry>)
      requires b < hashTab.Length && size > 0
      reads hashTab, s
    {
      && hashTab[b] == First(s) && Chained(s) && Unique(s)
      && forall x | x in s :: HashValue(x.addr, size) == b
    }

    ghost predicate Valid()
      reads this, hashTab, entries
    {
      && size > 0 && hashTab.Length == size == |chains|
      && (forall b, x | 0 <= b < size && x in chains[b] :: x in entries)
      && (forall b | 0 <= b < size :: Slot(b, chains[b]))
    }

    // What the table associates with a key.
    ghost function Get(mpType: MpType, addr: nat): Option<nat>
      requires Valid()
      reads this, hashTab, entries
    {
      TableGet(chains, mpType, addr)
    }

    constructor (size: nat := DEFAULT_MP_HASH_SIZE)
      requires size > 0
      ensures Valid() && this.size == size && fresh(hashTab) && fresh(entries)
      ensures forall t, a: nat :: Get(t, a) == None
    {
      this.size := size;
      hashTab := new MpEntry?[size](_ => null);
      chains, entries := seq(size, _ => []), {};
    }

    // Walks the chain of slot 'hv' to the first entry with the key, and its predecessor.
    method Search(hv: nat, mpType: MpType, addr: nat) returns (prev: MpEntry?, curr: MpEntry?, ghost k: nat)
      requires Valid() && hv < size
      ensures k <= |chains[hv]| && (if k == |chains[hv]| then curr == null else curr == chains[hv][k])
      ensures prev == if k == 0 then null else chains[hv][k - 1]
      ensures curr != null ==> curr.Matches(mpType, addr)
      ensures forall i | 0 <= i < k :: !chains[hv][i].Matches(mpType, addr)
    {
      ghost var s := chains[hv];
      assert Slot(hv, s);
      prev, curr, k := null, hashTab[hv], 0;
      while curr != null
        invariant Chained(s) && k <= |s| && (if k == |s| then curr == null else curr == s[k])
        invariant prev == if k == 0 then null else s[k - 1]
        invariant forall i | 0 <= i < k :: !s[i].Matches(mpType, addr)
        decreases |s| - k
      {
        if mpType == curr.mpType && addr == curr.addr {
          break;
        }
        assert k + 1 < |s| ==> s[k].next == s[k + 1];
        prev := curr;
        curr := curr.next;
        k := k + 1;
      }
    }

    // The entry with the given key, if there is one.
    method Lookup(mpType: MpType, addr: nat) returns (r: MpEntry?)
      requires Valid()
      ensures r == null <==> Get(mpType, addr) == None
      ensures r != null ==> r in entries && r.Matches(mpType, addr) && Get(mpType, addr) == Some(r.instr)
    {
      var hv := HashValue(addr, size);
      var prev, curr, k := Search(hv, mpType, addr);
      Found(chains[hv], k, mpType, addr);
      r := curr;
    }

    lemma Found(s: seq<MpEntry>, k: nat, mpType: MpType, addr: nat)
      requires k <= |s| && Unique(s) && forall i | 0 <= i < k :: !s[i].Matches(mpType, addr)
      ensures k < |s| && s[k].Matches(mpType, addr) ==> Assoc(s, mpType, addr) == Some(s[k].instr)
      ensures k == |s| ==> Assoc(s, mpType, addr) == None
    {
      if k < |s| {
        if s[k].Matches(mpType, addr) {
          AssocAt(s, k);
        }
      } else {
        AssocNone(s, mpType, addr);
      }
    }

    // A new entry becomes the head of its chain.
    method AddHead(hv: nat, mpType: MpType, addr: nat, instr: nat) returns (e: MpEntry)
      requires Valid() && hv == HashValue(addr, size)
      requires forall x | x in chains[hv] :: !x.Matches(mpType, addr)
      modifies this, hashTab
      ensures Valid() && chains == old(chains)[hv := [e] + old(chains[hv])] && entries == old(entries) + {e} && fresh(e)
      ensures e.mpType == mpType && e.addr == addr && e.instr == instr
    {
      ghost var s := chains[hv];
      e := new MpEntry(mpType, addr, instr, hashTab[hv]);
      assert Slot(hv, s);
      hashTab[hv] := e;
      chains := chains[hv := [e] + s];
      entries := entries + {e};
      forall b | 0 <= b < size
        ensures Slot(b, chains[b])
      {
        if b == hv {
          PushedChain(e, s);
        }
      }
    }

    static lemma PushedChain(e: MpEntry, s: seq<MpEntry>)
      requires Chained(s) && Unique(s) && e.next == First(s) && forall x | x in s :: !x.Matches(e.mpType, e.addr)
      ensures Chained([e] + s) && Unique([e] + s)
    {
      var t := [e] + s;
      forall i | 1 <= i < |t|
        ensures t[i] == s[i - 1] && !e.Matches(t[i].mpType, t[i].addr)
      {
        assert s[i - 1] in s;
      }
    }

    // A new key is added at the head of its chain. A key that is there already keeps its instruction.
    method Add(mpType: MpType, addr: nat, instr: nat)
      requires Valid()
      modifies this, hashTab
      ensures Valid() && fresh(entries - old(entries))
      ensures old(Get(mpType, addr)) == None ==> Get(mpType, addr) == Some(instr)
      ensures old(Get(mpType, addr)) != None ==> Get(mpType, addr) == old(Get(mpType, addr))
      ensures forall t, a: nat :: t != mpType || a != addr ==> Get(t, a) == old(Get(t, a))
    {
      var hv := HashValue(addr, size);
      ghost var s := chains[hv];
      var prev, curr, k := Search(hv, mpType, addr);
      Found(s, k, mpType, addr);
      if curr != null {
        return;
      }
      ghost var before := chains;
      var e := AddHead(hv, mpType, addr, instr);
      hide TableGet, Slot, HashValue;
      TablePushed(before, e, mpType, addr);
      forall t, a: nat | t != mpType || a != addr
        ensures Get(t, a) == old(Get(t, a))
      {
        TablePushed(before, e, t, a);
      }
    }

    // The first entry of a chain is unlinked.
    method UnlinkHead(hv: nat, curr: MpEntry)
      requires Valid() && hv < size && chains[hv] != [] && curr == chains[hv][0]
      modifies this`chains, hashTab
      ensures Valid() && chains == old(chains)[hv := old(chains[hv])[1..]]
    {
      hide HashValue;
      ghost var s := chains[hv];
      assert Slot(hv, s);
      assert 1 < |s| ==> s[0].next == s[1];
      hashTab[hv] := curr.next;
      chains := chains[hv := s[1..]];
      assert forall x | x in s[1..] :: x in s;
      assert Chained(s[1..]);
      forall b | 0 <= b < size
        ensures Slot(b, chains[b])
      {
        if b != hv {
          assert old(Slot(b, chains[b]));
        }
      }
    }

    // The entry after 'prev' is unlinked.
    method UnlinkNext(hv: nat, prev: MpEntry, curr: MpEntry, ghost k: nat)
      requires Valid() && hv < size && 0 < k < |chains[hv]| && curr == chains[hv][k] && prev == chains[hv][k - 1]
      modifies this`chains, entries
      ensures Valid() && chains == old(chains)[hv := old(chains[hv])[..k] + old(chains[hv])[k + 1..]]
    {
      hide HashValue;
      ghost var s := chains[hv];
      assert Slot(hv, s) && s[k] in entries && s[k - 1] in entries;
      assert k + 1 < |s| ==> s[k].next == s[k + 1];
      prev.next := curr.next;
      ghost var t := s[..k] + s[k + 1..];
      chains := chains[hv := t];
      AssocRemoved(s, k, curr.mpType, curr.addr);
      assert forall i | 0 <= i < |s| && i != k - 1 :: s[i] != prev && s[i].next == old(s[i].next);
      StillChained(s, t, k);
      forall b | 0 <= b < size
        ensures Slot(b, chains[b])
      {
        if b != hv {
          assert old(Slot(b, chains[b]));
          assert forall x | x in chains[b] :: x != prev && x.next == old(x.next);
        }
      }
    }

    static lemma StillChained(s: seq<MpEntry>, t: seq<MpEntry>, k: nat)
      requires 0 < k < |s| && t == s[..k] + s[k + 1..]
      requires forall i | 0 <= i < |s| - 1 && i != k - 1 :: s[i].next == s[i + 1]
      requires s[|s| - 1].next == null || k == |s|
      requires s[k - 1].next == if k + 1 < |s| then s[k + 1] else null
      ensures Chained(t) && forall x | x in t :: x in s
    {
      assert forall i | 0 <= i < k :: t[i] == s[i];
      assert forall i | k <= i < |t| :: t[i] == s[i + 1];
    }

    // The entry after 'prev', or the first one, is unlinked.
    method Unlink(hv: nat, prev: MpEntry?, curr: MpEntry, ghost k: nat)
      requires Valid() && hv < size && k < |chains[hv]| && curr == chains[hv][k]
      requires prev == if k == 0 then null else chains[hv][k - 1]
      modifies this`chains, hashTab, entries
      ensures Valid() && chains == old(chains)[hv := old(chains[hv])[..k] + old(chains[hv])[k + 1..]]
    {
      hide Slot, HashValue;
      ghost var s := chains[hv];
      if prev == null {
        UnlinkHead(hv, curr);
        assert s[..0] + s[1..] == s[1..];
      } else {
        UnlinkNext(hv, prev, curr, k);
      }
    }

    // The entry with the key is taken out of its chain; its instruction is returned.
    method Remove(mpType: MpType, addr: nat) returns (instr: Option<nat>)
      requires Valid()
      modifies this`chains, hashTab, entries
      ensures Valid() && instr == old(Get(mpType, addr)) && Get(mpType, addr) == None
      ensures forall t, a: nat :: t != mpType || a != addr ==> Get(t, a) == old(Get(t, a))
    {
      var hv := HashValue(addr, size);
      ghost var s, before := chains[hv], chains;
      var prev, curr, k := Search(hv, mpType, addr);
      Found(s, k, mpType, addr);
      if curr == null {
        return None;
      }
      assert Slot(hv, s) && s[k] in s;
      assert HashValue(s[k].addr, size) == hv;
      hide TableGet, Slot, HashValue, Chained;
      Unlink(hv, prev, curr, k);
      instr := Some(curr.instr);
      TableRemoved(before, hv, k, mpType, addr);
      hide Unique;
      forall t, a: nat | t != mpType || a != addr
        ensures Get(t, a) == old(Get(t, a))
      {
        TableRemoved(before, hv, k, t, a);
      }
    }
  }
}
