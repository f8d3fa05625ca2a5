// The replacement information of a cache set (sysc/memu.cpp, GetNewUse). 'use' names the ways in the order of their
// last access, the least recently used way in the lowest bits; the most recently used way is not stored.

module Lru {

  predicate Supported(ways: nat) {
    ways == 1 || ways == 2 || ways == 4
  }

  function Bits(way: nat): (d: bv8)
    requires way < 4
    ensures d < 4
  {
    if way == 0 then 0 else if way == 1 then 1 else if way == 2 then 2 else 3
  }

  function WayOf(d: bv8): (way: nat)
    requires d < 4
    ensures way < 4 && Bits(way) == d
  {
    if d == 0 then 0 else if d == 1 then 1 else if d == 2 then 2 else 3
  }

  // The way at bit position 'n' is removed if it is 'way'; what is above moves down.
  function Remove(u: bv8, n: bv8, way: bv8): bv8
    requires n == 0 || n == 2 || n == 4
  {
    if ((u >> n) & 3) == way then (u & ((1 << n) - 1)) | ((u & !((4 << n) - 1)) >> 2) else u
  }

  // The exclusive or of all four ways is 0, so that of three of them is the missing one.
  function WithMissing(u: bv8): bv8 {
    u | ((((u >> 4) ^ (u >> 2) ^ u) & 3) << 6)
  }

  // The ways at the positions below 'n' have been compared with 'way'.
  function RemovedBelow(u: bv8, n: bv8, way: bv8): bv8
    requires n == 0 || n == 2 || n == 4 || n == 6
  {
    var u0 := WithMissing(u);
    if n == 0 then u0
    else if n == 2 then Remove(u0, 0, way)
    else if n == 4 then Remove(Remove(u0, 0, way), 2, way)
    else Remove(Remove(Remove(u0, 0, way), 2, way), 4, way)
  }

  function NewUse(ways: nat, use: bv8, way: nat): bv8
    requires Supported(ways) && way < ways
  {
    if ways == 1 then 0
    else if ways == 2 then 1 - Bits(way)
    else RemovedBelow(use, 6, Bits(way)) & 0x3f
  }

  method GetNewUse(ways: nat, oldUse: bv8, way: nat) returns (newUse: bv8)
    requires Supported(ways) && way < ways
    ensures newUse == NewUse(ways, oldUse, way)
  {
    if ways == 1 {
      newUse := 0;
    } else if ways == 2 {
      newUse := 1 - Bits(way);
    } else {
      newUse := oldUse;
      newUse := newUse | ((((newUse >> 4) ^ (newUse >> 2) ^ newUse) & 3) << 6);
      var n: bv8 := 0;
      while n < 6
        invariant n == 0 || n == 2 || n == 4 || n == 6
        invariant newUse == RemovedBelow(oldUse, n, Bits(way))
        decreases 6 - n
      {
        if ((newUse >> n) & 3) == Bits(way) {
          newUse := (newUse & ((1 << n) - 1)) | ((newUse & !((4 << n) - 1)) >> 2);
        }
        n := n + 2;
      }
      newUse := newUse & 0x3f;
    }
  }

  const RESET_USE_4: bv8 := 0x24

  function ResetUse(ways: nat): bv8 {
    if ways == 4 then RESET_USE_4 else 0
  }

  // The way to be replaced: use & (CACHE_WAYS - 1).
  function Victim(ways: nat, use: bv8): (v: nat)
    requires Supported(ways)
    ensures v < ways
  {
    if ways == 1 then 0 else if ways == 2 then WayOf(use & 1) else WayOf(use & 3)
  }

  // ---------- What 'use' means ----------

  // All ways, each once.
  ghost predicate IsOrder(ways: nat, order: seq<nat>) {
    && |order| == ways && (forall k | 0 <= k < ways :: order[k] < ways)
    && (forall j, k | 0 <= j < k < ways :: order[j] != order[k])
  }

  function Pack(a: bv8, b: bv8, c: bv8): bv8 {
    a | (b << 2) | (c << 4)
  }

  ghost predicate Encodes(ways: nat, use: bv8, order: seq<nat>)
    requires Supported(ways) && IsOrder(ways, order)
  {
    if ways == 1 then use == 0
    else if ways == 2 then use == Bits(order[0])
    else use == Pack(Bits(order[0]), Bits(order[1]), Bits(order[2]))
  }

  // 'way' becomes the last.
  function MoveToBack(order: seq<nat>, way: nat): seq<nat> {
    if order == [] then [way]
    else if order[0] == way then order[1..] + [way]
    else [order[0]] + MoveToBack(order[1..], way)
  }

  // The four places a way can be in.
  lemma RemoveAt(a: bv8, b: bv8, c: bv8, d: bv8)
    requires a < 4 && b < 4 && c < 4 && d < 4 && a != b && a != c && a != d && b != c && b != d && c != d
    ensures RemovedBelow(Pack(a, b, c), 6, a) & 0x3f == Pack(b, c, d)
    ensures RemovedBelow(Pack(a, b, c), 6, b) & 0x3f == Pack(a, c, d)
    ensures RemovedBelow(Pack(a, b, c), 6, c) & 0x3f == Pack(a, b, d)
    ensures RemovedBelow(Pack(a, b, c), 6, d) & 0x3f == Pack(a, b, c)
  {}

  lemma {:induction false} MoveToBackAt(order: seq<nat>, k: nat)
    requires k < |order| && forall i, j | 0 <= i < j < |order| :: order[i] != order[j]
    ensures MoveToBack(order, order[k]) == order[..k] + order[k + 1..] + [order[k]]
  {
    if k > 0 {
      MoveToBackAt(order[1..], k - 1);
      assert order[1..][..k - 1] == order[1..k] && order[1..][k..] == order[k + 1..];
      assert [order[0]] + order[1..k] == order[..k];
    }
  }

  lemma OrderHasAll(ways: nat, order: seq<nat>, way: nat) returns (k: nat)
    requires Supported(ways) && IsOrder(ways, order) && way < ways
    ensures k < ways && order[k] == way
  {
    k := if order[0] == way then 0 else if order[1] == way then 1 else if order[2] == way then 2 else 3;
  }

  lemma NewOrder(ways: nat, order: seq<nat>, k: nat)
    requires IsOrder(ways, order) && k < ways
    ensures IsOrder(ways, order[..k] + order[k + 1..] + [order[k]])
  {}

  lemma BitsInjective(v: nat, w: nat)
    requires v < 4 && w < 4 && v != w
    ensures Bits(v) != Bits(w)
  {}

  lemma RemoveWay(a: nat, b: nat, c: nat, d: nat, use: bv8)
    requires a < 4 && b < 4 && c < 4 && d < 4 && a != b && a != c && a != d && b != c && b != d && c != d
    requires use == Pack(Bits(a), Bits(b), Bits(c))
    ensures NewUse(4, use, a) == Pack(Bits(b), Bits(c), Bits(d))
    ensures NewUse(4, use, b) == Pack(Bits(a), Bits(c), Bits(d))
    ensures NewUse(4, use, c) == Pack(Bits(a), Bits(b), Bits(d))
    ensures NewUse(4, use, d) == Pack(Bits(a), Bits(b), Bits(c))
  {
    BitsInjective(a, b); BitsInjective(a, c); BitsInjective(a, d);
    BitsInjective(b, c); BitsInjective(b, d); BitsInjective(c, d);
    hide Bits, Pack, RemovedBelow;
    RemoveAt(Bits(a), Bits(b), Bits(c), Bits(d));
  }

  // An update moves the accessed way to the end of the order.
  lemma NewUseEncodes(ways: nat, use: bv8, order: seq<nat>, way: nat)
    requires Supported(ways) && IsOrder(ways, order) && Encodes(ways, use, order) && way < ways
    ensures IsOrder(ways, MoveToBack(order, way))
    ensures Encodes(ways, NewUse(ways, use, way), MoveToBack(order, way))
  {
    var k := OrderHasAll(ways, order, way);
    MoveToBackAt(order, k);
    NewOrder(ways, order, k);
    if ways == 4 {
      hide Pack, Bits, NewUse, MoveToBack;
      RemoveWay(order[0], order[1], order[2], order[3], use);
    }
  }

  // ---------- Least recently used, over all access sequences ----------

  function UseAfter(ways: nat, accesses: seq<nat>): bv8
    requires Supported(ways) && forall k | 0 <= k < |accesses| :: accesses[k] < ways
  {
    if accesses == [] then ResetUse(ways)
    else NewUse(ways, UseAfter(ways, accesses[..|accesses| - 1]), accesses[|accesses| - 1])
  }

  function OrderAfter(ways: nat, accesses: seq<nat>): seq<nat> {
    if accesses == [] then seq(ways, k => k)
    else MoveToBack(OrderAfter(ways, accesses[..|accesses| - 1]), accesses[|accesses| - 1])
  }

  // The time of the last access to 'way'. Before the first access the ways count as accessed in ascending order.
  function LastAccess(ways: nat, accesses: seq<nat>, way: nat): int {
    if accesses == [] then way as int - ways
    else if accesses[|accesses| - 1] == way then |accesses| - 1
    else LastAccess(ways, accesses[..|accesses| - 1], way)
  }

  lemma {:induction false} LastAccessBound(ways: nat, accesses: seq<nat>, way: nat)
    requires way < ways
    ensures LastAccess(ways, accesses, way) < |accesses|
  {
    if accesses != [] {
      LastAccessBound(ways, accesses[..|accesses| - 1], way);
    }
  }

  // In the order of the ways, last accesses ascend.
  ghost predicate ByLastAccess(ways: nat, accesses: seq<nat>, order: seq<nat>) {
    forall j, k | 0 <= j < k < |order| :: LastAccess(ways, accesses, order[j]) < LastAccess(ways, accesses, order[k])
  }

  lemma ResetEncodes(ways: nat)
    requires Supported(ways)
    ensures IsOrder(ways, seq(ways, k => k)) && Encodes(ways, ResetUse(ways), seq(ways, k => k))
  {
    var order := seq(ways, k => k);
    assert ways == 4 ==> order[0] == 0 && order[1] == 1 && order[2] == 2;
    assert Pack(Bits(0), Bits(1), Bits(2)) == RESET_USE_4;
  }

  lemma {:induction false} OrderEncoded(ways: nat, accesses: seq<nat>)
    requires Supported(ways) && forall k | 0 <= k < |accesses| :: accesses[k] < ways
    ensures IsOrder(ways, OrderAfter(ways, accesses))
    ensures Encodes(ways, UseAfter(ways, accesses), OrderAfter(ways, accesses))
  {
    hide IsOrder, Encodes, MoveToBack, NewUse, ResetUse;
    if accesses == [] {
      ResetEncodes(ways);
    } else {
      var before, way := accesses[..|accesses| - 1], accesses[|accesses| - 1];
      OrderEncoded(ways, before);
      NewUseEncodes(ways, UseAfter(ways, before), OrderAfter(ways, before), way);
    }
  }

  lemma {:induction false} OrderIsByLastAccess(ways: nat, accesses: seq<nat>)
    requires Supported(ways) && forall k | 0 <= k < |accesses| :: accesses[k] < ways
    ensures IsOrder(ways, OrderAfter(ways, accesses)) && ByLastAccess(ways, accesses, OrderAfter(ways, accesses))
  {
    OrderEncoded(ways, accesses);
    hide Encodes, MoveToBack, NewUse, ResetUse, UseAfter;
    if accesses != [] {
      var n := |accesses| - 1;
      var before, way := accesses[..n], accesses[n];
      OrderIsByLastAccess(ways, before);
      var o, o' := OrderAfter(ways, before), OrderAfter(ways, accesses);
      var k := OrderHasAll(ways, o, way);
      MoveToBackAt(o, k);
      forall j | 0 <= j < ways - 1
        ensures LastAccess(ways, accesses, o'[j]) == LastAccess(ways, before, o'[j]) < n
      {
        assert o'[j] != o'[ways - 1];
        LastAccessBound(ways, before, o'[j]);
      }
    }
  }

  // After any accesses the victim is the way whose last access is the longest ago.
  lemma VictimIsLeastRecent(ways: nat, accesses: seq<nat>, other: nat)
    requires Supported(ways) && forall k | 0 <= k < |accesses| :: accesses[k] < ways
    requires other < ways && other != Victim(ways, UseAfter(ways, accesses))
    ensures LastAccess(ways, accesses, Victim(ways, UseAfter(ways, accesses))) < LastAccess(ways, accesses, other)
  {
    var order, use := OrderAfter(ways, accesses), UseAfter(ways, accesses);
    OrderIsByLastAccess(ways, accesses);
    OrderEncoded(ways, accesses);
    hide UseAfter, OrderAfter, LastAccess;
    VictimIsFirst(ways, use, order);
    var k := OrderHasAll(ways, order, other);
  }

  lemma PackLow(a: bv8, b: bv8, c: bv8)
    requires a < 4 && b < 4 && c < 4
    ensures Pack(a, b, c) & 3 == a
  {}

  lemma VictimIsFirst(ways: nat, use: bv8, order: seq<nat>)
    requires Supported(ways) && IsOrder(ways, order) && Encodes(ways, use, order)
    ensures Victim(ways, use) == order[0]
  {
    hide Pack;
    if ways == 4 {
      PackLow(Bits(order[0]), Bits(order[1]), Bits(order[2]));
    }
  }
}
