// Memory breakpoints of the GDB server (orpsocv2/bench/sysc/src/GdbServerSC.cpp): a trap instruction replaces the
// original one, which is kept in the hash table.

module Gdb {
  import opened MpHashTable

  const MEM_WORDS := 0x4000_0000
  const OR1K_TRAP_INSTR := 0x2100_0001

  // The address of a word.
  type WordAdr = a: nat | a < 4 * MEM_WORDS && a % 4 == 0 witness 0

  // The breakpoint table restricted to memory breakpoints, and target memory by words.
  datatype Target = Target(table: map<nat, nat>, mem: seq<nat>) {
    ghost predicate Valid() {
      |mem| == MEM_WORDS && forall a: WordAdr | a in table :: mem[a / 4] == OR1K_TRAP_INSTR
    }

    // The instruction that the program has at 'a'.
    function Original(a: WordAdr): nat
      requires |mem| == MEM_WORDS
    {
      if a in table then table[a] else mem[a / 4]
    }
  }

  datatype Request = Insert(a: WordAdr) | Remove(a: WordAdr)

  function Serve(t: Target, r: Request): Target
    requires |t.mem| == MEM_WORDS
  {
    match r
    case Insert(a) =>
      Target(if a in t.table then t.table else t.table[a := t.mem[a / 4]], t.mem[a / 4 := OR1K_TRAP_INSTR])
    case Remove(a) =>
      if a in t.table then Target(t.table - {a}, t.mem[a / 4 := t.table[a]]) else t
  }

  // One request, also a duplicate one, changes neither the program nor any other breakpoint.
  lemma ServeKeeps(t: Target, r: Request, x: WordAdr)
    requires t.Valid()
    ensures Serve(t, r).Valid() && Serve(t, r).Original(x) == t.Original(x)
    ensures x in Serve(t, r).table <==> if x == r.a then r.Insert? else x in t.table
  {}

  function ServeAll(t: Target, rs: seq<Request>): (u: Target)
    requires |t.mem| == MEM_WORDS
    ensures |u.mem| == MEM_WORDS
    decreases |rs|
  {
    if rs == [] then t else ServeAll(Serve(t, rs[0]), rs[1..])
  }

  // Whether 'x' is armed after the requests, if it was armed before according to 'before'.
  predicate Armed(before: bool, rs: seq<Request>, x: WordAdr)
    decreases |rs|
  {
    if rs == [] then before else Armed(if rs[0].a == x then rs[0].Insert? else before, rs[1..], x)
  }

  // After any requests memory holds the trap at the armed addresses and the original instruction elsewhere.
  lemma {:induction false} BreakpointsConserveMemory(t: Target, rs: seq<Request>, x: WordAdr)
    requires t.Valid()
    ensures var u := ServeAll(t, rs);
      && u.Valid() && (x in u.table <==> Armed(x in t.table, rs, x)) && u.Original(x) == t.Original(x)
      && u.mem[x / 4] == if Armed(x in t.table, rs, x) then OR1K_TRAP_INSTR else t.Original(x)
    decreases |rs|
  {
    hide Serve;
    if rs != [] {
      ServeKeeps(t, rs[0], x);
      BreakpointsConserveMemory(Serve(t, rs[0]), rs[1..], x);
    }
  }

  // Removing an armed breakpoint undoes inserting it, and inserting it twice is inserting it once.
  lemma InsertThenRemove(t: Target, a: WordAdr)
    requires t.Valid() && a !in t.table
    ensures Serve(Serve(t, Insert(a)), Remove(a)) == t
    ensures Serve(Serve(t, Insert(a)), Insert(a)) == Serve(t, Insert(a))
  {
    var u := Serve(t, Insert(a));
    assert u.table - {a} == t.table;
    assert u.mem[a / 4 := t.mem[a / 4]] == t.mem;
    assert u.mem[a / 4 := OR1K_TRAP_INSTR] == u.mem;
  }

  class GdbServer {
    const mpHash: MpHash
    var mem: seq<nat>                  // reached through the debug unit
    ghost var table: map<nat, nat>

    // The hash table holds exactly the memory breakpoints of 'table'.
    ghost predicate Valid()
      reads this, mpHash, mpHash.hashTab, mpHash.entries
    {
      && mpHash.Valid() && State().Valid()
      && forall a: WordAdr :: mpHash.Get(BP_MEMORY, a) == if a in table then Some(table[a]) else None
    }

    ghost function State(): Target
      reads this
    {
      Target(table, mem)
    }

    constructor (mem: seq<nat>)
      requires |mem| == MEM_WORDS
      ensures Valid() && State() == Target(map[], mem) && fresh(mpHash)
    {
      this.mem, table := mem, map[];
      mpHash := new MpHash();
    }

    method RspInsertMatchpoint(a: WordAdr)
      requires Valid()
      modifies this, mpHash, mpHash.hashTab
      ensures Valid() && State() == Serve(old(State()), Insert(a))
    {
      ServeKeeps(State(), Insert(a), a);
      mpHash.Add(BP_MEMORY, a, mem[a / 4]);
      table := if a in table then table else table[a := mem[a / 4]];
      mem := mem[a / 4 := OR1K_TRAP_INSTR];
    }

    method RspRemoveMatchpoint(a: WordAdr)
      requires Valid()
      modifies this, mpHash, mpHash.hashTab, mpHash.entries
      ensures Valid() && State() == Serve(old(State()), Remove(a))
    {
      ServeKeeps(State(), Remove(a), a);
      var instr := mpHash.Remove(BP_MEMORY, a);
      if instr.Some? {
        table := table - {a};
        mem := mem[a / 4 := instr.value];
      }
    }
  }
}
