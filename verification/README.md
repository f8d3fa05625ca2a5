# ParaNut verification

A Dafny model of the parts of the ParaNut repository whose correctness is hardest to see, with machine-checked proofs of
what they promise. `dafny verify dfyconfig.toml` checks everything.

**The memory unit** (`sysc/memu.cpp`) is modelled twice.

- As a clocked protocol: `Ports.dfy`, `Arbiter.dfy`, `BankArbiter.dfy` and `Memu.dfy` give one clock cycle of n write
  ports, 2n read ports, the bus interface and the arbiter, for any n and any cache geometry. What RAMs, bus and CPUs
  deliver is arbitrary, except that a CPU holds the inputs of a write port until it is acknowledged (memu.h:401).
  `MemuProofs.dfy`, `MemuBanks.dfy` and `MemuTags.dfy` prove the invariant of all reachable states, `MemuSafety.dfy`,
  `MemuSpecial.dfy` and `MemuHistory.dfy` what follows for whole runs. `BusIfLog.dfy` and `MemuOps.dfy` record what the
  bus interface does on bus, banks and tags in one operation and prove what a whole operation amounts to;
  `MemuAccess.dfy` and `MemuReads.dfy` tie the acknowledges of the ports to it. `MemuWorks.dfy` and `MemuProgress.dfy`
  prove that nothing that is asked for stays idle and that requests are answered. `MemuRuns.dfy`, `MemuRaces.dfy` and
  `MemuMixed.dfy` build runs from reset in which something remarkable happens. In each cycle the tag, bank and bus
  interface grants are evaluated first, then the line lock requests, of which some are dropped on a bank grant, then the
  line lock grants and the next states. `ArbiterUnit.dfy` and `PortUnits.dfy` are the methods of arbiter and ports with
  their loops and state switches; `MemuUnit.dfy` puts them together and shows that a cycle of all of them is a step of
  the protocol. The bus interface thread takes part in it as the transition function of `Ports.dfy`.
- As a cache: `Cache.dfy`, `CacheProofs.dfy` and `CacheUnit.dfy` follow tag entries, banks and bus memory through whole
  transactions, and show that they are a flat memory. `Lru.dfy`, `TagRam.dfy` and `TagRamRuns.dfy` treat the replacement
  policy, which the refinement does not depend on; `Address.dfy` how addresses are split.

**The load/store unit** (`sysc/lsu.cpp`: `Lsu.dfy`, `LsuProofs.dfy`, `LsuUnit.dfy`) is a four-slot buffer that merges,
forwards, shifts and retires stores in the same cycle; buffer and memory together are the program-order memory.
`LsuLoads.dfy` says what loads deliver, `LsuRequests.dfy` what is requested from memory and when stores are accepted,
`LsuMisaligned.dfy` treats accesses with an alignment error.

**The CoreMark list** (`CoreList.dfy`, `CoreListUnit.dfy`) is sorted in place by a bottom-up merge sort whose comparators
rewrite the elements they compare. Nodes and data cells lie in one memory block and a pointer is the number of a cell.

**The debug unit** (`Bits.dfy`, `BitReverse.dfy`, `Crc.dfy`, `DebugUnit.dfy`) builds and checks JTAG frames from bit
fields, bit reversals and a CRC. Machine words are sequences of bits on which the C operators act bit by bit. The
generator polynomial is that of section 3.2.9 of IEEE 802.3-2012; the code preloads all ones and does not complement.

**The breakpoints of the GDB server** (`MpHash.dfy`, `Gdb.dfy`) are kept in a hash table with chained entries.

Where the code and its documentation differ, the model follows the code:

- memu.h:506 demands that the address of a held line lock request does not change. This is proved, not assumed, with one
  exception: at the end of a special operation a write port can keep the lock for its next request
  (`MemuSafety.LockedAddressHeld`, `MemuRuns.LockCarried`). The bus interface does not ask for the lock then, so mutual
  exclusion holds all the same.
- Writers are supposed to acquire a line lock (memu.h:502-504). A write port starts a writeback, flush or invalidation
  as soon as it has the bus interface, even if it is not granted the line lock (memu.cpp:1055), and the bus interface
  then does not take it either. If another port holds the lock for a write to the same line, that write can be
  acknowledged and lost. `MemuSpecial.StartLockedIff` and `MemuSpecial.WorksLockedIff` say exactly when an operation
  runs without the lock, `MemuSpecial.OverlapMeansUnlocked` that bus interface and another port never meet in a set
  otherwise, and `MemuRaces.SpecialLosesWrite` builds the run.
- A load link is meant to fail the store conditional after a write by another CPU. It misses a write in the very next
  cycle, by a port that held the line lock when the link was set (`MemuHistory.WcondOkHidesWriteIff`,
  `MemuRuns.LinkMissesWrite`).
- An uncached read is meant to be an access of its own, and the CPU is told not to mix cached and uncached accesses to
  an address (memu.h:311-312), which switching the cache on or off does (paranut.cpp:319). If it is issued while a line
  with its word is being replaced, the port takes the word from there and nothing is read for it
  (`MemuReads.UncachedReadAnswered`, `MemuMixed.UncachedReadNotIssued`).
- The tag RAM is meant to replace the least recently used way. Use words are written back late, so that a miss soon after
  a hit can get the way just accessed (`TagRamRuns.MissGetsLeastRecent`, `TagRamRuns.MissGetsJustAccessed`).
- The load/store unit keeps slot 0 in the buffer when it serves a load, because the data are read one cycle later
  (lsu.cpp:238-240), but only if the slot is still to be written. A load of the same word in the very next cycle loses
  its data (`LsuLoads.LoadDeliversView`, `LsuLoads.SecondLoadLost`); the execution unit never makes one
  (`LsuLoads.WaitingLoadsRead`).
- An access with an alignment error returns before most signals are computed (lsu.cpp:130 and 140), and the registers
  follow the old ones once more: a store can move to another address, a slot can get lost, and a write to a device can
  be acknowledged twice (`LsuMisaligned.MisalignedIff`, `LsuMisaligned.MisalignedMovesStore`).
- The sort comments on an empty list (core_list_join.c:487), but stores through a null tail in that case
  (core_list_join.c:484); the sort of the model fails then.
- The alignment test for full words (lsu.cpp:130) only looks at bit 0, so an access at an address with remainder 2 is
  served as the whole word; the model does the same.
- The constant that stands for a set bit in the CRC loop has 28 ones, which covers the polynomial.

## Model

| member | source | states |
|---|---|---|
| LsuProofs.StepKeepsValid | sysc/lsu.cpp:85-314 | From reset on and in every cycle the used slots form a prefix, hold different words, only slot 0 may hold an I/O word, a dirty slot 0 is used, and a clean slot 0 agrees with memory. |
| LsuProofs.StepRefines | sysc/lsu.cpp:215-313 | Memory overlaid with the valid buffer bytes changes in a cycle only if a store is acknowledged, and then in exactly the bytes of that store; shifting, merging, acknowledging and retiring never change it. |
| LsuLoads.LoadDeliversView | sysc/lsu.cpp:150-189 | The data of an acknowledged load, read one cycle later (lsu.h:58), are the sign- or zero-extended bytes of that view, whether they come from the buffer, from memory or partly from both, if and only if they do not lie in a slot 0 that has already been written. Such a slot leaves the buffer at once, nothing is requested, and the load delivers whatever the read port shows. |
| LsuProofs.RunRefines | sysc/lsu.cpp:106-314 | After any run of aligned requests the program sees exactly its accepted stores, in program order, over the memory before. |
| LsuLoads.LoadsReadLastStored | sysc/lsu.cpp:106-314 | Every other acknowledged load in any run from reset delivers the bytes last stored at its address. |
| LsuLoads.WaitingLoadsRead | sysc/exu.cpp:632-655 | A CPU that holds its requests, and makes none in the cycle in which it takes the data of a load, never meets the exception: over all runs from reset all its loads deliver the bytes last stored. |
| LsuLoads.SecondLoadLost | sysc/lsu.cpp:244-250 | The exception exists: after reset, of two loads of a stored word that follow each other at once, the second one delivers any word the read port shows. |
| LsuLoads.StorePlacesBytes | sysc/lsu.cpp:127-145 | A store of one, two or four bytes puts the low bytes of its operand, highest first, into the bytes from its address on and leaves the others alone. |
| LsuLoads.LoadTakesBytes | sysc/lsu.cpp:162-172 | A load takes the same bytes as the low ones of its result and fills the rest with zeros or the sign. |
| LsuRequests.WritesAreRequested | sysc/lsu.cpp:198-213 | In every run, as long as slot 0 has bytes that memory does not hold they are requested to be written, and an accepted I/O store is requested until it is acknowledged. |
| LsuRequests.LoadsAreRequested | sysc/lsu.cpp:176-192 | A load is acknowledged exactly if all its bytes are buffered or memory acknowledges it, and otherwise its word is requested. |
| LsuRequests.StoreAcceptedIff | sysc/lsu.cpp:216-261 | Exactly when a store is accepted at once: an I/O store if the buffer is empty or its only slot is done; any other one unless slot 0 has its word and is still to be written, or four other words are buffered and none is done. |
| LsuRequests.StoreIsAccepted | sysc/lsu.cpp:216-261 | A store that the CPU holds is accepted after memory has answered at most nine cycles in which a write was requested or not needed, however many others lie between. |
| LsuProofs.IoStoreIsOrdered | sysc/lsu.cpp:215-261 | A store to a special address is accepted only when memory already holds everything stored before, and it is alone in slot 0 with exactly its own address, bytes and data. |
| LsuProofs.IoStepConserves | sysc/lsu.cpp:244-313 | In one cycle the pending I/O store plus the accepted ones equal the written ones plus the one pending afterwards. |
| LsuProofs.IoStoresIssuedOnce | sysc/lsu.cpp:215-313 | Over every run the I/O writes acknowledged by memory are the accepted I/O stores: same bytes, same order, once each, except for one that may still be pending. |
| LsuProofs.Slot0Held | sysc/lsu.cpp:198-253 | A write that is requested and not acknowledged is requested again in the next cycle, with the same address, bytes and data. |
| LsuProofs.IdleRetires | sysc/lsu.cpp:246-297 | Without a new request a cycle retires exactly one slot if the requested write is acknowledged or none is requested, and no slot otherwise. |
| LsuProofs.FlushTerminates | sysc/lsu.cpp:194-297 | However slow memory is, as many answered cycles as there are used slots empty the buffer, and memory then holds everything the program stored. |
| LsuProofs.FlushAcknowledged | sysc/lsu.cpp:194-196 | A flush is acknowledged exactly when the buffer is empty. |
| LsuUnit.MLsu.FindWbufHit | sysc/lsu.cpp:85-89 | The scan finds the first slot with bytes of the word, or -1. |
| LsuUnit.MLsu.FindEmptyWbufEntry | sysc/lsu.cpp:92-96 | The scan finds the first empty slot, or -1. |
| LsuUnit.MLsu.IsFlushed | sysc/lsu.cpp:99-103 | True exactly when no slot is used. |
| LsuUnit.MLsu.OutputMethod | sysc/lsu.cpp:106-262 | The output and internal signals of a cycle; after an alignment error the others keep their values. |
| LsuUnit.MLsu.TransitionThread | sysc/lsu.cpp:265-314 | The registers after the clock edge: shifted down, merged and marked dirty in place. |
| LsuUnit.MLsu.Clock | sysc/lsu.cpp:106-314 | A cycle of an aligned access is the step that refines flat memory, one of a misaligned access obeys the signals that were left; an accepted store always has a slot. |
| LsuMisaligned.MisalignedIff | sysc/lsu.cpp:106-314 | The access after any aligned request has an alignment error. Neither the program nor a device notices it, whatever memory holds and over every run of aligned requests that follows, exactly if no I/O write is acknowledged in both cycles and the repeated signals have no effect: no unwritten slot is shifted out, and an accepted store is merged or stored again for the same word without losing anything, or takes over the bytes of the slot that is shifted out. |
| LsuMisaligned.MisalignedMovesStore | sysc/lsu.cpp:128-143 | After reset any store that is followed by a misaligned access at another word is lost at its own word, and its bytes appear at the other one, whatever memory holds. |
| Address.ComposeSplits | sysc/memu.cpp:66-75 | Tag, index and bank of a composed address are the parts it was composed of, for any number of sets and banks. |
| Address.SplitComposes | sysc/memu.cpp:66-75 | Composing tag, index and bank of an address gives its word address. |
| Address.SameWord | sysc/memu.cpp:66-75 | Two addresses are in the same word exactly when tag, index and bank agree. |
| ArbiterSpec.LineLockSafe | sysc/memu.cpp:1360-1395 | If the addresses of held requests have not changed: at most one write port has the line lock, none for the set locked by the bus interface, only requesters are granted, and a held grant stays. |
| ArbiterSpec.LineLockWorks | sysc/memu.cpp:1373-1388 | If a write port asks and none is granted, every asking port works on the set that the bus interface has locked. |
| ArbiterSpec.TagReadersSafe | sysc/memu.cpp:1423-1441 | New readers keep the tag lock exclusive with one reader per RAM port, only requesters are granted and held grants stay. |
| ArbiterSpec.TagWritersSafe | sysc/memu.cpp:1445-1459 | A new writer is granted only when nobody reads or writes tags; held grants stay. |
| ArbiterSpec.TagReadersWork | sysc/memu.cpp:1423-1441 | A tag RAM port that is asked for is not left without a reader while nobody asks to write a tag. |
| ArbiterSpec.TagWritersWork | sysc/memu.cpp:1445-1459 | Somebody may write a tag whenever somebody asks to and nobody reads. |
| ArbiterSpec.BusIfSafe | sysc/memu.cpp:1586-1611 | The bus interface has one owner, a requester, and an owner that keeps asking stays owner. |
| ArbiterSpec.BusIfWorks | sysc/memu.cpp:1594-1603 | Some port owns the bus interface exactly when some port asks for it. |
| BankArbiter.BankSafe | sysc/memu.cpp:1485-1582 | In every step all ports granted on a RAM port have exactly the address driven to it, at most one of its write ports and the bus interface is granted, and only requests are granted. |
| BankArbiter.BankWorks | sysc/memu.cpp:1485-1582 | A RAM port that is asked for serves somebody, and with him every reader of the same address, whatever the number of requesters. |
| BankArbiter.HeldWriteGrantIff | sysc/memu.cpp:1547-1561 | In one step of the arbiter a write port loses its held grant exactly when another write port on its RAM port, later in priority order, asks for the same address. |
| BankArbiter.HeldGrantKept | sysc/memu.cpp:1508-1562 | In one step held read grants and the grant of the bus interface are never revoked, and held write grants not if no other write port asks or each CPU has its own RAM port. |
| BankArbiter.HeldWriteGrantRevoked | sysc/memu.cpp:1547-1561 | An arbiter fed with requests that the line lock keeps away from it would revoke a held write grant, for more CPUs than RAM ports. |
| BankArbiter.SoleBankUser | sysc/memu.cpp:1485-1582 | A port that asks alone for a bank is granted it in the same cycle. |
| ArbiterUnit.MArbiter.LineLockMethod | sysc/memu.cpp:1360-1395 | The loops over the write ports compute the line lock grants. |
| ArbiterUnit.MArbiter.TagMethod | sysc/memu.cpp:1398-1468 | The loops over the CPUs compute the read and the write grants of the tag RAM, and none before it is ready. |
| ArbiterUnit.MArbiter.BankMethod | sysc/memu.cpp:1485-1582 | The loops over banks, RAM ports, CPUs and requesters compute the bank grants and drive each RAM port with the selected address. |
| ArbiterUnit.MArbiter.BusIfMethod | sysc/memu.cpp:1586-1611 | The loop over the CPUs computes the owner of the bus interface. |
| ArbiterUnit.MArbiter.SnoopMethod | sysc/memu.cpp:1614-1636 | Every write port but the one with the line lock is told its address, and nobody is told anything without a lock; there is one such port by precondition, see SnoopFindsOneWriter. |
| ArbiterUnit.MArbiter.TransitionThread | sysc/memu.cpp:1648-1672 | At the clock edge all grants become the held grants and the priority counter steps. |
| PortUnits.MWritePort.CombineData | sysc/memu.cpp:955-967 | The selected bytes come from the new word, the others from the old one. |
| PortUnits.MWritePort.MainMethod | sysc/memu.cpp:970-1287 | All requests, outputs, captured values and the next state of the twenty-state machine; the tag that is driven is the one just read, the captured one, or that made dirty; a written word is the combined one. |
| PortUnits.MWritePort.LinkMethod | sysc/memu.cpp:1008-1061 | A snooped write to the linked address breaks the link, a load link makes one; the load link wins. |
| PortUnits.MWritePort.Clock | sysc/memu.cpp:943-1287 | A clock cycle of the write port is the port step of the protocol. |
| PortUnits.MReadPort.MainMethod | sysc/memu.cpp:698-862 | All requests, outputs, the delivered data, the way and the next registers of the read port. |
| MemuUnit.MMemu.constructor | sysc/memu.cpp:1825-2053 | After reset the unit is in an initial state of the protocol. |
| MemuUnit.MMemu.Clock | sysc/memu.cpp:408-1672 | Ports, arbiter and bus interface put together: evaluating all methods in the order of their signals and then clocking all registers is one step of the protocol, with the acknowledges of the protocol, and keeps its invariant. |
| MemuTags.GrantsGranted | sysc/memu.cpp:1360-1611 | In every reachable state the line lock, tag, bank and bus interface grants of a cycle are exclusive, go to requesters and are kept while requested, for any number of CPUs. |
| MemuBanks.OneWriterAsks | sysc/memu.cpp:1064-1179 | Write ports ask for banks only with the line lock, so only one does at a time. |
| MemuBanks.BanksAreGranted | sysc/memu.cpp:1485-1582 | In every reachable state the ports granted on a RAM port of a bank agree on the address, one writer at most is among them, and no held grant is lost. |
| MemuTags.AdvanceInv | sysc/memu.cpp:408-1672 | Every clock cycle of arbiter, write ports, read ports and bus interface keeps the invariant of the protocol. |
| MemuSafety.RunExtends | sysc/memu.h:399-405 | Every run can be continued: the rules for the CPUs never exclude all inputs. |
| MemuSafety.WritePortMutex | sysc/memu.cpp:1360-1395 | In every cycle of every run at most one write port is between the capture of a tag and the last write or in recheck and replace, and none on the set that the bus interface has locked. Only the rule that a CPU holds its inputs is assumed. |
| MemuSafety.SnoopFindsOneWriter | sysc/memu.cpp:1614-1625 | The assertion of the snoop unit never fails: at most one write port is granted the line lock. |
| MemuSafety.LockedAddressHeld | sysc/memu.h:501-509 | Over all runs, a write port that is granted the line lock keeps its address in the next cycle, unless it is acknowledged in that cycle at the end of a special operation with the bus interface idle. |
| MemuRuns.LockCarried | sysc/memu.cpp:1267-1275 | That case exists: for any two addresses there is a run in which a port has the lock for one and, in the next cycle, for the other. |
| MemuSafety.OneBankWriter | sysc/memu.cpp:1064-1179 | In every cycle of every run at most one write port asks for banks. |
| MemuSafety.BankGrantsSafe | sysc/memu.h:530-535 | In every cycle of every run, for any number of CPUs and without assumptions on addresses: only requests for a bank are granted, the grants of a RAM port agree on the address and include one writer at most, and a held grant is never revoked. |
| MemuSafety.BankAddressHeld | sysc/memu.h:533 | Over all runs the way and index address of a write port or the bus interface does not change while it asks for a bank. |
| MemuSafety.TagRamPortsExclusive | sysc/memu.cpp:1398-1468 | In every cycle of every run only one port writes a tag, so the assertion on multiple tag writes never fails, and each tag RAM port has at most one reader. |
| MemuSafety.ReadHitNotTorn | sysc/memu.cpp:762-843 | When the bank read of a port is granted, the port has sampled its tag in an earlier cycle with the grant for it, and from then on no tag has been written by anyone. |
| MemuSafety.TagsStableWhileUsed | sysc/memu.cpp:762-843 | In a cycle in which a read port samples or holds a tag nobody writes a tag. |
| MemuSafety.BankReadEndsTagUse | sysc/memu.cpp:762-843 | A bank read on a hit ends an uninterrupted use of a tag that began with a tag read grant. |
| MemuSafety.WritePortsBackOff | sysc/memu.cpp:1039-1249 | Over all runs a write port that waits for a resource while it holds a later one in the order bus interface, line lock, tag, bank does not ask for the later one in the next cycle. |
| MemuSafety.ReadPortsBackOff | sysc/memu.cpp:698-862 | The same for a read port whose CPU holds its request, as memu.h:306 demands; and whatever the CPU does, the port does not wait against the order for two cycles in a row. |
| MemuWorks.ReaderFindsBank | sysc/memu.cpp:1485-1582 | Over all runs, a read port that asks for its bank finds the RAM port of its bank serving somebody, and is granted it unless another address is driven. |
| MemuWorks.WriterFindsBank | sysc/memu.cpp:1485-1582 | The same for a write port: the RAM port of its bank serves somebody. |
| MemuWorks.BusFindsBank | sysc/memu.cpp:1485-1582 | The same for the bus interface and each bank it asks for. |
| MemuWorks.TagsAreServed | sysc/memu.cpp:1398-1468 | Over all runs, the tag RAM port of a CPU that is asked for serves a reader unless somebody asks to write a tag; and if nobody reads, somebody who asks to write may. |
| MemuWorks.BusifIsServed | sysc/memu.cpp:1586-1611 | Over all runs, the bus interface has an owner exactly if some port asks for it. |
| MemuWorks.LockIsServed | sysc/memu.cpp:1360-1395 | Over all runs, a write port that asks for the line lock while no write port has it works on the set that the bus interface has locked. |
| MemuOps.OperationCompletes | sysc/memu.cpp:408-627 | Over all runs, whatever arbiter, RAMs and bus do: when the bus interface gets ready, it has sampled one tag; has read every word of the new line from the bus once, in wrap-around order from the requested one; if that tag is dirty and the operation is not an invalidation, has read every bank of the old line and written every word of it to the bus once, and otherwise none; has filled every bank exactly for a replacement; and has written the tags in their order. An uncached access is one transfer. |
| MemuOps.BankFilledLate | sysc/memu.cpp:528-592 | Over all runs, when the bus interface asks for a bank to fill it, all words of the new line have been read, all banks of the old one if its tag is dirty, and the tag has been made invalid. |
| MemuOps.BankOfLine | sysc/memu.cpp:528-592 | Over all runs, a bank the bus interface asks for is addressed by the index of its line and the way of the tag it has sampled. |
| MemuOps.OperationEnds | sysc/memu.cpp:408-627 | Every operation ends: it never goes back, and takes less than two cycles per bank and sixteen more in which all that the bus interface asks for is granted. |
| MemuAccess.UncachedWriteIssued | sysc/memu.cpp:1023-1075 | Over all runs, when an uncached write is acknowledged, the bus interface has taken it over from this port, in this access, as a write to its address. |
| MemuAccess.SpecialIsDone | sysc/memu.cpp:1252-1275 | Over all runs, when a writeback, flush or invalidation is acknowledged, the bus interface has taken over just this operation from this port, in this access and for its address, and has completed it. |
| MemuAccess.HandedOverDone | sysc/memu.cpp:1232-1249 | Over all runs, a write port that has waited for the replacement of its line finds that it has been taken over from this port in this access, and is complete. |
| MemuAccess.OtherAcks | sysc/memu.cpp:1023-1275 | A write to the cache is acknowledged by its commit to bank and tag, or as a store conditional that fails for want of a link. |
| MemuReads.ReadAckMeans | sysc/memu.cpp:698-862 | Over all runs, a read port is acknowledged only in a cycle in which it holds a valid tag and is granted its bank, which drives its index and the way of that tag, sampled before and overwritten by nobody since; or in which its word has been read from the bus in the running operation. The data of the next cycle come from the bank exactly in the first case. |
| MemuReads.MissAnswered | sysc/memu.cpp:845-853 | Over all runs, after a miss the acknowledged word has been read from the bus in a replacement of its line that the bus interface has taken over from this port in this access. |
| MemuReads.UncachedReadAnswered | sysc/memu.cpp:729-760 | Over all runs, an acknowledged uncached read has been taken over from this port in this access exactly if the bus interface was idle in some cycle of it. Otherwise the word has been read in a replacement of its line that was running before. |
| MemuMixed.UncachedReadNotIssued | sysc/memu.cpp:732-760 | That case exists: for every address there is a run from reset in which a word is read through the cache, then uncached, and the second read is acknowledged although the bus interface has never taken it over. |
| MemuProgress.WriteIsAnswered | sysc/memu.cpp:970-1287 | Over all runs, a write port acknowledges a request that is held after less than 4 * banks + 47 cycles in a row in which it and the bus interface are granted what they ask for, unless the tag RAM denies a line just replaced. |
| MemuProgress.ReadIsAnswered | sysc/memu.cpp:698-862 | Over all runs, a read port acknowledges a read of a word that is held from the cycle in which the port is ready for it after less than 4 * banks + 39 such cycles. |
| MemuSpecial.BusIfInOrder | sysc/memu.cpp:408-627 | The bus interface asks for tags and banks only while it works on a line, and never for two of them at a time. |
| MemuSpecial.StartLockedIff | sysc/memu.cpp:1049-1055 | In the cycle in which a write port starts a writeback, flush or invalidation it is granted the line lock exactly if no other write port is and the bus interface does not still hold it for a set just finished, the same one. |
| MemuSpecial.SpecialLockedIff | sysc/memu.cpp:1258-1275 | In every further cycle of such an operation the port is granted the line lock exactly if no other write port is. |
| MemuSpecial.SpecialKeepsLock | sysc/memu.cpp:1258-1395 | Over all runs, a port that is granted the line lock when it starts the operation, or in it, keeps it to the end, and no other write port works on a line meanwhile. |
| MemuSpecial.WorksLockedIff | sysc/memu.cpp:408-627 | Over all runs, when the bus interface works on a line, it is granted the line lock or it works for a waiting write port on that port's line. That port has the lock when it replaces a line, and in a special operation exactly if no other write port has it. |
| MemuSpecial.OverlapMeansUnlocked | sysc/memu.cpp:408-627 | Over all runs, if the bus interface and a write port it does not work for are at work on the same set, the bus interface runs a special operation of another port, started in an earlier cycle without the line lock and without it ever since. |
| MemuRaces.SpecialLosesWrite | sysc/memu.cpp:1049-1055 | That case exists and loses data: for every configuration with two CPUs or more and every address there is a run from reset in which a writeback or flush reads the dirty line, another port then writes a word of it and is acknowledged, and the tag is written clean or invalid afterwards. |
| MemuHistory.LinkSafety | sysc/memu.cpp:1614-1636 | A valid link was made by its CPU for that address in an earlier cycle, and no other write port was granted the line lock for it in any cycle since. |
| MemuHistory.WcondOkSeesNoWriter | sysc/memu.cpp:983-1061 | Whenever write-conditional success is reported for an address, the CPU linked it earlier, and no other port has worked on it from the second cycle after the link up to now; if no other port was granted the line lock for it in the cycle of the link, from the first cycle. |
| MemuHistory.WcondOkHidesWriteIff | sysc/memu.cpp:983-1061 | Such a success hides a bank write of another port since the link exactly if that port writes in the cycle right after the link, and then it was granted the line lock in the cycle of the link. |
| MemuRuns.LinkMissesWrite | sysc/memu.cpp:1175-1186 | With two CPUs or more there is a run in which a port links a word, another one writes it in the next cycle with its lock request dropped, and the first still reports success afterwards. |
| MemuHistory.AckMeansCommitted | sysc/memu.cpp:1064-1179 | When a cached write is acknowledged, its bank write was granted during this access and for this address, and the tag was found dirty or has been written dirty. |
| MemuHistory.AckedTagHolds | sysc/memu.cpp:1064-1179 | When a cached write is acknowledged, its port has sampled a valid tag of the line in an earlier cycle, dirty or written dirty since, and from then on nobody else has written a tag of the set, except for a special operation that was started without the line lock. |
| MemuHistory.BankWriteCombines | sysc/memu.cpp:1110-1187 | Over all runs a granted bank write stores the new word or, if only part of it is new, the word read earlier in the same access at the same way with exactly the selected bytes replaced. |
| MemuHistory.BankWriteHitsLine | sysc/memu.cpp:1089-1197 | Over all runs, a word is written to the bank at the index of its address and in the way of the valid tag that the port has sampled in this access. |
| MemuHistory.StateTellsHistory | sysc/memu.cpp:1064-1179 | In every state of a write access the port has done what the state stands for. |
| CacheProofs.ReplaceKeeps | sysc/memu.cpp:510-615 | Loading a line after a miss, with the write-back of any victim, does not change memory as the CPUs see it and keeps the cache consistent: no line twice, only valid lines dirty, clean lines equal to memory. |
| CacheProofs.SpecialKeeps | sysc/memu.cpp:526-627 | Writeback and flush do not change memory as the CPUs see it, even when they miss and evict the least recently used line of the set. |
| CacheProofs.HitsDuringFill | sysc/memu.cpp:556-584 | While a new line is written under its invalid tag, in whatever part, every hit still delivers the right word. |
| CacheProofs.FlushEvicts | sysc/memu.cpp:586-599 | After a flush the line is not cached and bus memory holds its present value. |
| CacheProofs.WritebackUpdatesMemory | sysc/memu.cpp:526-615 | After a writeback bus memory holds the present value of the line. |
| CacheProofs.WriteHitAt | sysc/memu.cpp:1064-1179 | A write to a cached line changes exactly its selected bytes and nothing else that the CPUs can see. |
| CacheProofs.StepRefines | sysc/memu.cpp:408-1287 | Each read, write, writeback or flush, with any choice of the replaced way, is the same operation on a flat memory. |
| CacheProofs.RunRefines | sysc/memu.cpp:408-1287 | Over every run the reads deliver exactly what a flat memory would, and the cache ends up showing that memory. |
| CacheProofs.ResetShows | sysc/memu.cpp:213-230 | After reset the cache shows bus memory. |
| CacheUnit.MCache.TagRead | sysc/memu.cpp:239-277 | The way loop finds the hit or takes the victim; the assertion that no line is in two ways never fails. |
| CacheUnit.MCache.ReadBusLine | sysc/memu.cpp:510-524 | Reading the words in wrap-around order from the requested one delivers the whole line. |
| CacheUnit.MCache.WriteVictim | sysc/memu.cpp:602-615 | The victim's words go to the address composed from the old tag. |
| CacheUnit.MCache.BusOperation | sysc/memu.cpp:487-627 | Replace, writeback and flush, done step by step on tag RAM, banks and bus, have the effect of the transaction. |
| CacheUnit.MCache.ReadPort | sysc/memu.cpp:762-862 | A read transaction and the word it delivers. |
| CacheUnit.MCache.WritePort | sysc/memu.cpp:1064-1232 | A write transaction: fetch on a miss, combine, mark dirty. |
| CacheUnit.MCache.ExecuteAll | sysc/memu.cpp:408-1287 | Executing any list of transactions in place returns the words that a flat memory would return. |
| Lru.GetNewUse | sysc/memu.cpp:174-202 | The bit manipulation with its loop computes the new use word. |
| Lru.NewUseEncodes | sysc/memu.cpp:174-202 | If a use word names the ways in the order of their last access, an update moves the accessed way to the end of that order. |
| Lru.OrderIsByLastAccess | sysc/memu.cpp:174-230 | After any accesses from reset the order of the ways is the order of their last accesses. |
| Lru.VictimIsLeastRecent | sysc/memu.cpp:174-277 | After any accesses the way to be replaced is the one whose last access is the longest ago. |
| TagRam.VictimNotJustUsed | sysc/memu.cpp:174-277 | A way that has just been accessed is not the next to be replaced. |
| TagRam.TagForDelivers | sysc/memu.cpp:241-276 | For the order of ways that the stored use word encodes, a read that hits gets the way that holds its line, and one that misses the first way of the order, with the dirty bit and the tag of that way. |
| TagRam.PendingForNotes | sysc/memu.cpp:248-262 | A hit makes its way the last of the order, by a use word noted for write-back or because it was the last already; a miss notes nothing. |
| TagRam.MTagRam.ReadAccess | sysc/memu.cpp:239-277 | The loops over ports and ways deliver to every reading port what the order of its set promises, and note what it must. |
| TagRam.MTagRam.Cycle | sysc/memu.cpp:232-311 | In a cycle of reads, one tag write or one write-back, reads get what the order of their sets before the cycle promises; a tag write changes exactly the tag it addresses and makes its way the last; otherwise the first outstanding use word is stored. |
| TagRamRuns.MissGetsLeastRecent | sysc/memu.cpp:239-311 | Over all runs from reset, a port that misses gets the way of its set whose last access is the longest ago, if the use words of the set have been written back in time and none is outstanding. |
| TagRamRuns.MissGetsJustAccessed | sysc/memu.cpp:239-311 | Otherwise not: a miss in the cycle after a hit in the least recently used way gets just that way. |
| TagRamRuns.WriteBacksDrain | sysc/memu.cpp:298-309 | Over all runs, after as many cycles without tag writes and hits as ports wait to write back, nothing is outstanding. |
| CoreListSpec.ComputedByBits | sw/coremark_v1.0/core_list_join.c:71-92 | The kernel gets the byte that has bits 3 to 6 of the cell in both halves, the state kernel 0x22 at least; a cell without a kernel is its own value. |
| CoreListUnit.CoreList.CalcFunc | sw/coremark_v1.0/core_list_join.c:63-95 | The value of a cell is computed at the first call by the kernel its bits select, cached and returned; a cached cell does not change. |
| CoreListUnit.CoreList.Compare | sw/coremark_v1.0/core_list_join.c:101-118 | A comparison settles both cells and returns the difference of their keys. |
| CoreListUnit.CoreList.Merge | sw/coremark_v1.0/core_list_join.c:438-481 | Two adjacent runs are merged in place behind what has been merged before: the same nodes, in order, stable, although the comparisons change the data. |
| CoreListUnit.CoreList.Pass | sw/coremark_v1.0/core_list_join.c:432-484 | A pass merges all runs in pairs; runs of twice the size remain, fewer than before. Without any run it fails and changes nothing. |
| CoreListUnit.CoreList.Mergesort | sw/coremark_v1.0/core_list_join.c:426-496 | The sort succeeds exactly on lists that are not empty, and then terminates with exactly the same nodes in order of the keys, equal keys in their old order, under both comparators; otherwise nothing has changed. |
| CoreListSpec.SortedUnique | sw/coremark_v1.0/core_list_join.c:426-496 | There is only one such result. |
| CoreListSpec.StepP | sw/coremark_v1.0/core_list_join.c:452-477 | Taking the first element of the first run keeps the merge linked, sorted and complete. |
| CoreListSpec.StepQ | sw/coremark_v1.0/core_list_join.c:452-477 | The same for the second run. |
| CoreListSpec.RelinkedMoves | sw/coremark_v1.0/core_list_join.c:157-162 | The three pointer assignments move the node after the found one behind the head. |
| CoreListSpec.IndexSortRestores | sw/coremark_v1.0/core_list_join.c:112-118 | Sorting by index restores order and data of a list with ascending indices, whatever has been done to its order and its low data bytes. |
| CoreListUnit.CoreList.Find | sw/coremark_v1.0/core_list_join.c:370-380 | The first node with the index or data byte, or NULL. |
| CoreListUnit.CoreList.Reverse | sw/coremark_v1.0/core_list_join.c:395-404 | The list is reversed in place. |
| CoreListUnit.CoreList.FindAndReverse | sw/coremark_v1.0/core_list_join.c:144-162 | One search finds the first wanted node, reverses the list and moves what then follows that node behind the head; the exact new order is given. |
| CoreListUnit.CoreList.RemoveAndUndo | sw/coremark_v1.0/core_list_join.c:316-355 | Removing the second node and undoing it restores every pointer. |
| CoreListUnit.CoreList.BenchList | sw/coremark_v1.0/core_list_join.c:132-199 | For a list of at least three nodes with ascending indices and equal data bytes, the benchmark leaves the node order and all data as they were. |
| DebugUnit.PackBits | orpsocv2/bench/sysc/src/DebugUnitSC.cpp:827-857 | A field of 1 to 63 bits at any offset, also across a word boundary, is replaced by the low bits of the value, and no other bit changes. |
| DebugUnit.UnpackBits | orpsocv2/bench/sysc/src/DebugUnitSC.cpp:873-900 | Exactly the bits of the field are returned. |
| DebugUnit.PackUnpack | orpsocv2/bench/sysc/src/DebugUnitSC.cpp:827-900 | Unpacking a packed field gives the packed bits, unpacking any field beside it gives what was there. |
| DebugUnit.PackUnpackModulo | orpsocv2/bench/sysc/src/DebugUnitSC.cpp:827-900 | As a number, unpacking gives the packed value modulo 2 to the width. |
| DebugUnit.Crc32 | orpsocv2/bench/sysc/src/DebugUnitSC.cpp:944-957 | The loop over the bits computes the CRC register; the mask of 28 ones loses nothing. |
| DebugUnit.AppendCrc | orpsocv2/bench/sysc/src/DebugUnitSC.cpp:641-649 | A frame closed with its reversed CRC has residue zero, and its payload is unchanged. |
| DebugUnit.CheckResponse | orpsocv2/bench/sysc/src/DebugUnitSC.cpp:658-669 | The receive check passes exactly when payload and CRC field together have residue zero. |
| DebugUnit.CommandFrame | orpsocv2/bench/sysc/src/DebugUnitSC.cpp:641-649 | The burst command of register reads and writes: its layout and residue zero. |
| DebugUnit.CommandDecodes | orpsocv2/bench/sysc/src/DebugUnitSC.cpp:641-650 | Opcode, access type, address and length can be read back from the frame. |
| DebugUnit.GoFrame | orpsocv2/bench/sysc/src/DebugUnitSC.cpp:670-674 | The frame that starts a transfer, with or without data: its layout and residue zero. |
| DebugUnit.SelectFrame | orpsocv2/bench/sysc/src/DebugUnitSC.cpp:584-590 | The frame that selects a module: its layout and residue zero. |
| Crc.PolyIsStandard | orpsocv2/bench/sysc/src/DebugUnitSC.cpp:944-957 | The polynomial is 0x04c11db7, that of IEEE 802.3. |
| Crc.CrcIsRemainder | orpsocv2/bench/sysc/src/DebugUnitSC.cpp:944-957 | For every message the register is the remainder, modulo that polynomial with its term of degree 32, of the message times x^32 with the first 32 bits complemented. |
| Crc.ZerosFail | orpsocv2/bench/sysc/src/DebugUnitSC.cpp:944-957 | No frame of zeros, of whatever length, passes the check. |
| Crc.ResidueIff | orpsocv2/bench/sysc/src/DebugUnitSC.cpp:944-957 | A frame of any length has residue zero exactly when its CRC field is the reversed CRC of its payload. |
| Crc.BurstDetected | orpsocv2/bench/sysc/src/DebugUnitSC.cpp:944-957 | Two frames of the same length that pass the check and differ within 32 consecutive bits are equal; in particular they never differ in exactly one bit. |
| Crc.BurstOf33Missed | orpsocv2/bench/sysc/src/DebugUnitSC.cpp:944-957 | 32 is the exact bound: every passing frame has another one that differs within 33 bits at any chosen place. |
| BitReverse.SwarTwice | orpsocv2/bench/sysc/src/DebugUnitSC.cpp:959-996 | Each parallel reversal is its own inverse on all words. |
| BitReverse.SwarIsReversalIff | orpsocv2/bench/sysc/src/DebugUnitSC.cpp:959-1015 | It equals the bit loop exactly on the values below 2 to the length. |
| BitReverse.BitReverseData | orpsocv2/bench/sysc/src/DebugUnitSC.cpp:998-1015 | The low bits of the result are the low bits of the argument in reverse order, for every length up to 32. |
| MpHashTable.MpHash.Add | orpsocv2/bench/sysc/src/MpHash.cpp:71-94 | A new key is added, an existing one keeps its instruction, no other key changes. |
| MpHashTable.MpHash.Lookup | orpsocv2/bench/sysc/src/MpHash.cpp:105-118 | The entry of the key is found exactly when there is one. |
| MpHashTable.MpHash.Remove | orpsocv2/bench/sysc/src/MpHash.cpp:134-164 | The key is removed and its instruction returned, no other key changes. |
| MpHashTable.AssocRemoved | orpsocv2/bench/sysc/src/MpHash.cpp:134-164 | Unlinking one entry of a chain removes its key and no other. |
| Gdb.ServeKeeps | orpsocv2/bench/sysc/src/GdbServerSC.cpp:1402-1411 | One insert or remove request, also a duplicate one, changes neither the program nor any other breakpoint. |
| Gdb.BreakpointsConserveMemory | orpsocv2/bench/sysc/src/GdbServerSC.cpp:1560-1566 | After any requests at word addresses memory holds the trap at the armed addresses and the original instruction elsewhere. |
| Gdb.InsertThenRemove | orpsocv2/bench/sysc/src/GdbServerSC.cpp:1560-1566 | Removing a breakpoint undoes inserting it; inserting it twice is inserting it once. |
| Gdb.GdbServer.RspInsertMatchpoint | orpsocv2/bench/sysc/src/GdbServerSC.cpp:1560-1566 | Inserting a memory breakpoint on hash table and target memory. |
| Gdb.GdbServer.RspRemoveMatchpoint | orpsocv2/bench/sysc/src/GdbServerSC.cpp:1402-1411 | Removing a memory breakpoint; an absent one is ignored. |

## Left out

- MemuSafety.ReadHitNotTorn: speaks of tags; that a bank word is read whole is a property of the RAM, whose contents are arbitrary in the cycle model.
- MemuSafety.ReadPortsBackOff: if the CPU changes its request in between, against memu.h:306, the port may ask for the later resource again, but not for both.
- MemuSafety.BankAddressHeld: read ports are left out, because their address follows the tag RAM, whose contents are arbitrary in the cycle model; a read port that has been granted a bank does not ask again.
- MemuHistory.BankWriteCombines: says what is written to the bank, not what the bank RAM held when it was read.
- LsuUnit.MLsu.OutputMethod: the signals of cache control requests and those that pass load links and conditional stores on to the write port are not modelled.
- LsuUnit.MLsu.Clock: cache control requests are not modelled.
- LsuMisaligned.MisalignedIff: covers the first misaligned access after an aligned request, not a second one in a row.
- CacheProofs.SpecialKeeps: the operation is one step here; in the source another port can write between its cycles if it was started without the line lock (`MemuRaces.SpecialLosesWrite`).
- CacheProofs.StepRefines: one transaction at a time, so that such writes are not covered.
- CacheProofs.RunRefines: one transaction at a time, so that such writes are not covered.
- CoreListUnit.CoreList.Mergesort: run lengths and merge counts are unbounded integers, the 32-bit variables of the source are not modelled.
- CoreListUnit.CoreList.BenchList: the checksum in the return value is not modelled; the traversals that compute it are.
- CoreListUnit.CoreList.CalcFunc: the matrix and state kernels are an arbitrary function of operation, operand and number of calls, and the checksum they feed is not modelled.
- Gdb.BreakpointsConserveMemory: word addresses only; the target's treatment of other addresses is not part of the source.
- Gdb.GdbServer.RspInsertMatchpoint: word addresses only, for the same reason.
- Gdb.GdbServer.RspRemoveMatchpoint: word addresses only, for the same reason.
- MemuUnit.MMemu.Clock: the bus interface thread takes part as a transition function from one wait to the next; its loops, without the waits, are in the transaction model. The order in which the simulator evaluates methods until nothing changes is fixed to one that needs two passes over the write ports.
- Cycle and transaction model are not formally connected. For special operations that run without the line lock the connection fails in the source (`MemuSpecial.WorksLockedIff`, `MemuRaces.SpecialLosesWrite`); for the others it would need the contents of tag and bank RAM in the cycle model.
- The cache operation invalidate: on a miss it drops the least recently used way of the set without writing it back.
- Uncached accesses to cached addresses, and bus agents that write memory on their own.
- MemuOps.OperationCompletes: speaks of addresses and order; the words on the bus and in the banks are followed in the transaction model.
- MemuAccess.UncachedWriteIssued: the bus transfer itself may follow the acknowledge, as in the source; `MemuOps.OperationCompletes` says that it is made. The data word and the byte selection are latched with the address, and not modelled.
- MemuReads.UncachedReadAnswered: the run shown for the exception reads the word through the cache right before.
- MemuProgress.WriteIsAnswered: fairness of the arbiter and speed of the bus are assumed for the cycles that are counted.
- MemuProgress.ReadIsAnswered: the same, and the address of a whole word, which is all the load/store unit sends (lsu.cpp:116).
- LsuLoads.LoadsReadLastStored: the read port delivers the word that memory holds when it acknowledges, before or after a write of the same cycle.
- Store conditional beyond the link: a conditional write with a valid link to another address proceeds, as in the source.
- Reset in the middle of operation; the models start from reset.
- Fairness of the arbiter: the fixed port order within a priority slot can starve a port.
- LSU cache control requests, width code 3, a load and a store or a flush and another request at the same time; other CPUs that write the same words.
- The memory block of CoreMark: its cells are numbered entries of sequences that the methods reassign. Nodes that share a data cell are excluded; core_list_insert_new gives each node its own.
- The list initialisation of CoreMark, and its matrix, state and main parts.
- JTAG queues and their retry loops, the register access of the CPU module, and all breakpoint kinds but memory breakpoints.
- Tracing, performance counters, SystemC sensitivity lists, testbenches, instruction fetch and execution units, UART and file loading: peripheral to these properties, or dependent on simulator scheduling.
