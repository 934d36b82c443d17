# Core protocols of QEMU, modelled and proved in Dafny

This project models the parts of QEMU 4.2 (`qemu-nyx/`) whose correctness is least
obvious from the code, and proves what each of them is for. Where the C code updates a
structure in place the model does so too: an object becomes a class, a loop becomes a
loop with invariants, and every method is proved against a mathematical description of
what it should do. The main results are about all inputs, all reachable states or all
interleavings.

**Physical memory dispatch** (`exec.c`). A flat list of disjoint memory sections is
turned into a multi-level page table with path compression, subpage tables for sections
that do not fill a page, and a most-recently-used shortcut.
`FlatViews.Linear`, a linear search of the list, is the reference. The proof goes from
single table entries (`PhysPageTable`, `PhysPageMaps`) through the meaning of section
numbers (`SectionStores`) to the whole dispatch (`MemoryDispatch`): every lookup, for
every address and whatever was used last, gives the region and offset that the linear
search gives. Compaction leaves nothing to compact, and pages that lie in one section need
no subpage. Page size, bits per level and number of levels are parameters, and
addresses and offsets wrap at the size of the address space as unsigned numbers do. On
top of it, the chunked read and write loops and the search for the longest contiguous
run (`AccessLoops`) agree with byte-by-byte access.

**RAM blocks and dirty pages** (`exec.c`). `RamLists` and `DirtyMemories` have the
allocator of RAM offsets (with its 64-bit wrap-around), the sorted block list, the lookup
through the most recently used block, and the two-level dirty bitmap with growth, range
operations and snapshots.

**Waiting for the bounce buffer** (`exec.c`) and **exclusive sections** (`cpus-common.c`).
`MapClients` and `ExclusiveSection` are step relations of any number of threads over
shared variables, locks and condition variables; one step is one atomic access, and steps
are sequentially consistent, as the memory barriers of the source make them. Invariants
over every reachable state give mutual exclusion, exact counts, no lost wake-up, no
forgotten client and no deadlock; a count of the steps ahead gives progress: every call of
`cpu_exec_start`, `cpu_exec_end`, `start_exclusive` and `end_exclusive` returns in whatever
order the threads take turns.

**Block graph permissions** (`block.c`). `BlockTopology` and `BlockPermissions` describe
an acyclic graph whose edges carry used and shared permissions; `BlockLayers` has the
recursive check that assigns as it goes and keeps one backup for each edge, the abort and
the final set; `BlockReplacement` has the breadth-first search that protects against
loops, and the replacement of one node by another. Drivers are arbitrary functions from
a node's cumulative permissions to those of its children. An update that fails leaves no
trace; where no node is entered twice it fails if and only if no assignment of permissions
could grant it. Elsewhere it can fail although it could be granted, because children are
checked one after the other; there it fails only if users of some node can at all be at odds.
A failure is reported only if the check came to a node at which more was asked for than
before, and passed over only if less was asked for all the way to a driver that refused.

**GDB packets** (`gdbstub.c`). `GdbPackets` has hex digits, checksum and escapes;
`GdbReader` the byte-at-a-time receiver with its fixed buffer; `GdbStreams` what becomes
of whole streams of bytes: "Debugging with GDB", appendix "GDB Remote Serial Protocol",
section "Overview".

**Transactions** (`blockdev.c`) over dirty bitmaps and the **instruction-counting clock**
(`cpus.c`) are in `Transactions` and `VirtualClocks`. In both, laws one would expect turn out
not to hold for all inputs, and the exact conditions are proved instead:

- A failed transaction puts all bitmaps back, if and only if the action that failed is
  not an enable action that found no bitmap (its abort callback then has none to work
  on) or found one that is enabled and cannot be used (its abort callback then leaves
  the bitmap disabled). The comment above `qmp_transaction` promises a full roll-back.
- The time that `cpu_get_icount` returns never goes back, on whatever threads it is read, if
  and only if no warp of the clock happens while the time of the machine is behind the start
  of the warp or, in adaptive mode, behind the time shown.
- The time that makes of all instructions executed, whether accounted for or not, never goes
  back, if and only if no such warp happens and the speed is not lowered on a thread other
  than the CPU's while instructions have not been accounted for. `icount_adjust` is run by a
  timer of the main loop, where `current_cpu` is not set, so this does happen.

`Arithmetic` has quotients, remainders and multiples by a variable as functions defined
by counting, proved equal to the built-in operators, because the solver deals with them
far better in that form: `Quot(n, d)` is `n / d`, `RoundDown(n, d)` is `n / d * d`,
`Wrap(a, m)` is `a % m` and `Multiple(n, d)` says that d divides n.

## Model

| member | source | states |
|---|---|---|
| `PhysPageMaps.PhysPageMap.NodeReserve` | qemu-nyx/exec.c:189-197 | there is room for the nodes asked for; the table grows only if there was none, then to what is needed or to the last size of a table if that is more, and never shrinks |
| `PhysPageMaps.PhysPageMap.NodeAlloc` | qemu-nyx/exec.c:199-217 | a new node of unassigned or empty entries, given that the two asserts of the source hold |
| `PhysPageMaps.PhysPageMap.SetLevel` | qemu-nyx/exec.c:219-243 | below one entry, exactly the part of the page range that lies there is given to the leaf, every other path leads where it led, index and count advance by that part, and the number of new nodes is within a bound by height and by whether the range begins or ends inside |
| `PhysPageMaps.PhysPageMap.Set` | qemu-nyx/exec.c:245-253 | for a range of unmapped pages: afterwards exactly these pages lead to the leaf and all others where they did, and at most 2 * levels - 1 nodes were allocated, so neither assert of the allocation can fail |
| `PhysPageMaps.PhysPageMap.Compact` | qemu-nyx/exec.c:258-307 | below one entry, every path that led to a section still does, and a path that led nowhere leads nowhere or to a section found elsewhere below the entry; afterwards no entry below leads to a node with a single entry that could be skipped |
| `PhysPageMaps.PhysPageMap.CompactAll` | qemu-nyx/exec.c:309-314 | the same for the whole table: no page in use loses its section, and nothing is left to compact |
| `PhysPageMaps.PhysPageMap.Mirrored` | qemu-nyx/exec.c:258-314 | page by page: a compacted table gives the same section as before, or it gives an unmapped page the section of another page |
| `PhysPageMaps.PhysPageMap.FindLoop` | qemu-nyx/exec.c:327-341 | the loop that consumes skip levels at a time computes the digit-by-digit walk |
| `PhysPageTable.DigitsSkip` | qemu-nyx/exec.c:335-341 | looking at the index bits after skipping levels is dropping that many digits of the page number |
| `PhysPageTable.MirrorsJoined` | qemu-nyx/exec.c:282-307 | cutting out a node with one valid entry, by adding up the skips, changes no path through that entry |
| `PhysPageTable.TightJoined` | qemu-nyx/exec.c:282-307 | cutting out a node with one valid entry leaves nothing to compact there if nothing was left below it |
| `FlatViews.SplitSection` | qemu-nyx/exec.c:1605-1627 | cutting a section in two, with wrapping offsets, changes neither what is covered nor any translation |
| `SectionStores.SoundAppend` | qemu-nyx/exec.c:1575-1586 | adding a section over vacant bytes keeps every section number right about all the addresses it covers |
| `SectionStores.SoundWriteTable` | qemu-nyx/exec.c:1568-1572 | so does writing a section into the subpage table of its page |
| `SectionStores.FoundAfterCompact` | qemu-nyx/exec.c:343-347 | the final coverage check makes up for every page that compaction leads astray |
| `MemoryDispatch.AddressSpaceDispatch.SectionAdd` | qemu-nyx/exec.c:1502-1519 | sections are numbered in order as long as numbers fit beside a page offset |
| `MemoryDispatch.AddressSpaceDispatch.RegisterMultipage` | qemu-nyx/exec.c:1575-1586 | a section of whole pages becomes part of the view and all invariants of the dispatch are kept; all its pages lead to it directly, and no other page changes |
| `MemoryDispatch.AddressSpaceDispatch.PageFind` | qemu-nyx/exec.c:327-348 | the section the page table has for the address if it covers it, else the unassigned section |
| `MemoryDispatch.AddressSpaceDispatch.SubpageRegister` | qemu-nyx/exec.c:2856-2874 | exactly the bytes from start to end of one table get the section number |
| `MemoryDispatch.AddressSpaceDispatch.SubpageFor` | qemu-nyx/exec.c:1544-1567 | afterwards the page of the section is served by a subpage, new or there before |
| `MemoryDispatch.AddressSpaceDispatch.RegisterSubpage` | qemu-nyx/exec.c:1544-1572 | a section within one page becomes part of the view and all invariants of the dispatch are kept |
| `MemoryDispatch.AddressSpaceDispatch.Add` | qemu-nyx/exec.c:1595-1631 | for any section over vacant bytes: the first part, whole pages and last part together answer like the section itself, and all invariants are kept; every page that lies in the section as a whole leads to its region directly and not through a subpage |
| `MemoryDispatch.AddressSpaceDispatch.Compact` | qemu-nyx/exec.c:309-314 | for every address, what `phys_page_find` returns is the same before and after compaction |
| `MemoryDispatch.AddressSpaceDispatch.Populate` | qemu-nyx/memory.c:722-728 | for any list of pairwise disjoint non-empty sections: afterwards the dispatch is ready for lookups and answers like the list; pages that lie in one section as a whole are served without a subpage |
| `MemoryDispatch.AddressSpaceDispatch.Lookup` | qemu-nyx/exec.c:351-368 | for every address and any most recently used section: the section returned covers the address; it is unassigned only if no section of the view covers it; a region gives the region and offset of the linear search, and a subpage is that of the address and its table gives them; with subpages resolved it is always a region or unassigned; the page table is consulted if and only if the section used last does not cover the address |
| `SectionStores.RightAnswers` | qemu-nyx/exec.c:351-368 | a section number that is right about an address it covers answers for it, whether it is a region, a subpage or unassigned |
| `MemoryDispatch.AddressSpaceDispatch.Translate` | qemu-nyx/exec.c:371-404 | region and offset are those of the linear search; for RAM the length returned is positive and all the bytes of that length translate to consecutive offsets of the same region; it is less than asked for only if it reaches the end of the section found |
| `AccessLoops.Write` | qemu-nyx/exec.c:3159-3221 | on RAM the chunked loop ends and leaves memory as writing the bytes one by one, in ascending order, each through its own translation, even if sections alias the same RAM |
| `AccessLoops.Read` | qemu-nyx/exec.c:3224-3281 | on RAM the chunked loop ends and returns the bytes that single-byte reads return |
| `AccessLoops.ExtendTranslation` | qemu-nyx/exec.c:3522-3547 | the longest run of at most the target length over which translation stays in the region and contiguous |
| `RamLists.FindGap` | qemu-nyx/exec.c:1973-2008 | the smallest gap behind an existing block that is big enough, of equal ones the first in the list; none, if and only if no gap behind a block is |
| `RamLists.FindRamOffset` | qemu-nyx/exec.c:1962-2012 | what is handed out is aligned, below the top of the address space and free, even where rounding up wraps round to 0 |
| `RamLists.GapFree` | qemu-nyx/exec.c:1979-1998 | no block lies between a block's end, rounded up, and the next block's start |
| `RamLists.Insert` | qemu-nyx/exec.c:2285-2301 | the block is added to the list, which stays sorted by falling length, disjoint and aligned |
| `RamLists.RamList.Add` | qemu-nyx/exec.c:2245-2311 | the block goes to the best fit, is dirty for every client, and all RAM there was keeps its dirty bits; on failure nothing changes; the list stays aligned, disjoint and sorted; it fails if and only if there is no room or the host has no memory; the most recently used block is forgotten and the version of the list goes up |
| `RamLists.RamList.Free` | qemu-nyx/exec.c:2491-2509 | exactly this block leaves the list, which stays aligned, disjoint and sorted; the most recently used block is forgotten and the version of the list goes up |
| `RamLists.RamList.GetRamBlock` | qemu-nyx/exec.c:1252-1288 | the one block that holds the address, or none if there is none, whatever block was used most recently, and it becomes that block |
| `RamLists.Extend` | qemu-nyx/exec.c:2205-2243 | for one client: all bits of RAM there was are kept, new blocks are clean, and there is a bit for every page of the new size |
| `DirtyMemories.SetRange` | qemu-nyx/include/exec/ram_addr.h:337-360 | for one client: exactly the pages of the range become dirty, across block boundaries |
| `DirtyMemories.TestAndClear` | qemu-nyx/exec.c:1335-1344 | true if and only if a page of the range was dirty; exactly these pages become clean |
| `DirtyMemories.CopyAndClear` | qemu-nyx/exec.c:1426-1441 | the bits of the range in order, copied word by word across block boundaries; exactly these pages become clean |
| `DirtyMemories.PagesOfRange` | qemu-nyx/exec.c:1325-1326 | the pages between the bounds computed from a byte range are those that hold a byte of it |
| `RamLists.RamList.SetDirtyRange` | qemu-nyx/include/exec/ram_addr.h:316-364 | for the clients in the mask exactly the pages of the range become dirty; the others keep all bits |
| `RamLists.RamList.TestAndClearDirty` | qemu-nyx/exec.c:1311-1356 | for one client: whether a page that holds a byte of the range was dirty, and exactly these pages become clean |
| `RamLists.RamList.SnapshotAndClearDirty` | qemu-nyx/exec.c:1403-1451 | the snapshot has the bits as they were of the whole words that hold the range, and exactly these are cleared |
| `RamLists.SnapshotGetDirty` | qemu-nyx/exec.c:1453-1472 | for any part of the snapshot: true if and only if a page that holds a byte of it was dirty when the snapshot was taken, whatever has happened since |
| `MapClients.InvStep` | qemu-nyx/exec.c:3420-3485 | every step of every thread keeps the invariant |
| `MapClients.NoForgottenClient` | qemu-nyx/exec.c:3437-3448 | in every reachable state with waiting clients and the lock free, the bounce buffer is in use or a thread has cleared in_use and is about to notify |
| `MapClients.OneOwner` | qemu-nyx/exec.c:3577-3580 | in every reachable state the bounce buffer has exactly one owner if it is in use, and none otherwise |
| `MapClients.NoLostClient` | qemu-nyx/exec.c:3426-3435 | in every reachable state each registered client waits, has been scheduled once, or was removed |
| `MapClients.NotifyDelivers` | qemu-nyx/exec.c:3480-3485 | with the lock free, a thread that has cleared in_use gets every waiting client scheduled by its own steps alone |
| `MapClients.MapTakes` | qemu-nyx/exec.c:3577-3580 | whoever finds the bounce buffer free gets it, and whoever does not gets nothing |
| `MapClients.UnmapDelivers` | qemu-nyx/exec.c:3634-3639 | a thread that gives the buffer back frees it and gets every waiting client scheduled once, by its own steps alone |
| `MapClients.RegisterWaits` | qemu-nyx/exec.c:3437-3448 | a client that registers while the buffer is in use waits |
| `MapClients.RegisterDelivers` | qemu-nyx/exec.c:3437-3448 | a client that registers while the buffer is free is scheduled at once, with all that wait |
| `MapClients.UnregisterDelivers` | qemu-nyx/exec.c:3466-3478 | a client that is taken off is gone, and no other client is |
| `MapClients.Waiting` | qemu-nyx/exec.c:3437-3448 | for every client there is a run in which it waits, with the lock free, while another thread has the bounce buffer |
| `ExclusiveSection.NextInv` | qemu-nyx/cpus-common.c:163-293 | every step of every thread, spurious wake-ups included, keeps the invariant |
| `ExclusiveSection.MutualExclusion` | qemu-nyx/cpus-common.c:172-216 | in every interleaving, while a thread is between the return of `start_exclusive` and the reset of `pending_cpus`, no CPU executes and no other thread is there |
| `ExclusiveSection.PendingCounts` | qemu-nyx/cpus-common.c:180-205 | once published, `pending_cpus` is one more than the number of CPUs with `has_waiter`, whenever the lock is free |
| `ExclusiveSection.NoLostWakeup` | qemu-nyx/cpus-common.c:260-293 | nobody sleeps unless there is something left to wait for or the wake-up is about to come |
| `ExclusiveSection.NoDeadlock` | qemu-nyx/cpus-common.c:163-293 | in every reachable state with a thread inside the protocol, some thread can go on |
| `ExclusiveSection.EnabledSteps` | qemu-nyx/cpus-common.c:163-293 | a thread that can go on has a step that is not a spurious wake-up |
| `ExclusiveSection.WorkDone` | qemu-nyx/cpus-common.c:163-293 | every step that is neither a new call nor a spurious wake-up lowers a count of steps ahead, broadcasts and signals included |
| `ExclusiveSection.WorkBounded` | qemu-nyx/cpus-common.c:163-293 | however the threads take turns, a run without new calls and spurious wake-ups is no longer than that count |
| `ExclusiveSection.Inevitable` | qemu-nyx/cpus-common.c:172-293 | whoever is in one of the four calls has returned from it, to run, to its exclusive section or to where it came from, by the time no thread can go on, in whatever order threads have taken turns |
| `ExclusiveSection.Progress` | qemu-nyx/cpus-common.c:172-293 | from every reachable state with a thread in one of the four calls, work alone leads to a state in which it has returned |
| `ExclusiveSection.AllOutside` | qemu-nyx/cpus-common.c:172-293 | when no thread can go on, all are outside and every shared variable has its initial value |
| `ExclusiveSection.FastPath` | qemu-nyx/cpus-common.c:220-293 | while no exclusive section is pending, a CPU starts and ends execution by its own steps alone, without the lock |
| `ExclusiveSection.AllRunning` | qemu-nyx/cpus-common.c:220-257 | for any number of CPUs there is a run that ends with all of them running at once |
| `ExclusiveSection.Entered` | qemu-nyx/cpus-common.c:172-205 | a run that ends inside an exclusive section exists, so mutual exclusion is not about an empty set of states |
| `BlockLayers.BlockLayer.GetCumulative` | qemu-nyx/block.c:1940-1954 | the union of what all parents use and the intersection of what they share |
| `BlockLayers.BlockLayer.CheckPerm` | qemu-nyx/block.c:1800-1882 | on success nobody writes to a node that is not writable, the children have what the driver derives, and everything below is settled and approved; only edges below change, each is backed up, and users stay compatible; it succeeds if a settled assignment exists and no node below is entered twice, and fails only if the node refuses or users below can be at odds; more is reported as tightened only if at some node it came to more was asked for or a user was in the way, and a failure without that ended at a driver that refused |
| `BlockLayers.BlockLayer.CheckUpdatePerm` | qemu-nyx/block.c:2003-2062 | on success the new user is compatible with every parent that is not ignored, and what is checked below is the new user joined with these parents; the same conditions for success and failure, with the other parents counted |
| `BlockLayers.BlockLayer.ChildCheckPerm` | qemu-nyx/block.c:2066-2096 | on success the edge has the grant asked for and every node that can be reached from it is settled; the first assignment is backed up, later ones are not; the same conditions for success and failure |
| `BlockLayers.BlockLayer.Abort` | qemu-nyx/block.c:1891-1907 | every edge below has its backup restored if it had one; every other edge is untouched |
| `BlockLayers.BlockLayer.ChildAbort` | qemu-nyx/block.c:2112-2121 | the same for an edge and everything below it |
| `BlockLayers.BlockLayer.SetPerm` | qemu-nyx/block.c:1909-1938 | after a successful check, backups below are dropped and no grant changes: the set phase recomputes exactly what was checked |
| `BlockLayers.BlockLayer.ChildSetPerm` | qemu-nyx/block.c:2098-2110 | the same for an edge and everything below it |
| `BlockLayers.BlockLayer.TrySetPerm` | qemu-nyx/block.c:2123-2152 | a failed update leaves every edge as it was and no backup, also if an edge was reached twice; a successful one gives the edge its grant, settles everything below with the approval of all drivers and touches nothing else; users are compatible at every node either way; if no node below is entered twice, it is applied if and only if some assignment does that; in every graph it fails only if users of a node below can be at odds, and succeeds only if the first child finds its other users willing; a failure is reported only if the check came to a node at which a user was in the way or more was asked for than before, never if no more is asked for and no driver below makes more of less; it is hidden only if less was asked for wherever the check came to on its way to a driver that refused |
| `BlockPermissions.CompatibleAssign` | qemu-nyx/block.c:2019-2054 | a grant compatible with the other parents keeps all users of all nodes compatible |
| `BlockPermissions.PassedOn` | qemu-nyx/block.c:1765-1779 | what a node passes on is what its driver derives, except that a child kept open with force-share lets others do everything |
| `BlockLayers.EasesEdgeNot` | qemu-nyx/block.c:1815-1879 | if no driver below makes more of less and all passes on what is derived, asking for no more than before finds nothing to tighten in any state that the check can come to |
| `BlockLayers.HiddenVetoed` | qemu-nyx/block.c:2133-2146 | a failure that is passed over shows a driver below that refuses |
| `BlockLayers.ChildFits` | qemu-nyx/block.c:1855-1879 | if no node is entered twice, what has become of the other children does not matter to the check of a child |
| `BlockLayers.OrderMatters` | qemu-nyx/block.c:1861-1879 | a graph in which a node is entered twice and an update that could be granted, but whose first child meets a user that would only later give up what is in the way |
| `BlockLayers.ObjectionAt` | qemu-nyx/block.c:2019-2054 | a refusal at a node shows two of its users, or a user and the node, at odds |
| `BlockReplacement.ShouldUpdateChild` | qemu-nyx/block.c:4073-4150 | true if and only if the role does not stay at its node and the edge does not lie below the new node |
| `BlockReplacement.MovedRanked` | qemu-nyx/block.c:4109-4119 | moving edges that do not lie below the new node creates no cycle |
| `BlockReplacement.MovedCompatible` | qemu-nyx/block.c:4183-4199 | checking all moved users at once against the users of the new node makes them compatible one by one |
| `BlockReplacement.CollectParents` | qemu-nyx/block.c:4167-4181 | exactly the edges to move, with the union of their permissions; refused if and only if one of them is frozen |
| `BlockReplacement.MoveAll` | qemu-nyx/block.c:4194-4200 | exactly the edges of the list point at the new node, lists and links agree, at every node references minus parent edges are as before, every `bdrv_unref` meets a positive count and none of them is the last one |
| `BlockReplacement.ReplaceNode` | qemu-nyx/block.c:4152-4209 | a refused replacement changes nothing; otherwise exactly the users that do not stay and do not lie below the new node move to it, no cycle and no conflict arises, everything below the new node is settled, no backup remains, and references minus parent edges are unchanged at every node and never negative; if no node below the new one is entered twice and no user is frozen, it is refused only if no assignment fits the new graph, and in every graph only if a user is frozen or users can be at odds there |
| `BlockReplacement.MoveFits` | qemu-nyx/block.c:4183-4199 | what is settled and compatible after the move is what the check before the move, with the moved users ignored, arrives at |
| `BlockReplacement.MoveObjection` | qemu-nyx/block.c:4183-4192 | what the check before the move objects to is an objection after the move |
| `GdbPackets.MemToHex` | qemu-nyx/gdbstub.c:549-560 | two hex digits for every byte |
| `GdbPackets.HexDigits` | qemu-nyx/gdbstub.c:528-539 | digits of either case have the value of their place in 0123456789abcdef, and everything else counts as 0 |
| `GdbPackets.HexWritten` | qemu-nyx/gdbstub.c:541-547 | digits are written in lower case |
| `GdbPackets.HexToMem` | qemu-nyx/gdbstub.c:562-570 | any text is read two characters at a time, and reading back what was written gives the bytes again |
| `GdbPackets.MemToX` | qemu-nyx/gdbstub.c:653-671 | the wire form of the data with exactly the special characters escaped |
| `GdbPackets.TokensForWire` | qemu-nyx/gdbstub.c:658-668 | escaped data has no packet start and no packet end in it and is at most twice as long |
| `GdbPackets.WrittenAsIs` | qemu-nyx/gdbstub.c:653-671 | data without the four special characters is written as it is |
| `GdbPackets.WrittenEscaped` | qemu-nyx/gdbstub.c:658-663 | each of the four is written as an escape and the character with bit 5 changed |
| `GdbPackets.FlipBits` | qemu-nyx/gdbstub.c:658-663 | escaping changes bit 5 of a character and no other |
| `GdbPackets.FrameOfOk` | qemu-nyx/gdbstub.c:606-629 | the answer OK is framed as $OK#9a |
| `GdbReader.AddUp` | qemu-nyx/gdbstub.c:620-623 | adding up signed characters gives the checksum of the unsigned bytes modulo 256 |
| `GdbReader.GdbState.PutPacket` | qemu-nyx/gdbstub.c:606-642 | the buffer kept for retransmission and the bytes sent are the frame of the payload |
| `GdbReader.GdbState.ReadByte` | qemu-nyx/gdbstub.c:2796-2937 | the state in the fixed buffers changes as the receiver's specification says, and the buffers are never overrun |
| `GdbStreams.FeedBounded` | qemu-nyx/gdbstub.c:2836-2901 | no stream of bytes whatsoever makes the line outgrow its buffer |
| `GdbStreams.TokensRead` | qemu-nyx/gdbstub.c:2836-2901 | reading characters, escapes and run lengths that fit gives what they stand for and sums up their bytes |
| `GdbStreams.Delivered` | qemu-nyx/gdbstub.c:2825-2934 | a packet of characters, escapes and run lengths that fit is acknowledged and handled, exactly as meant, if and only if its checksum is right, and refused otherwise |
| `GdbStreams.Dropped` | qemu-nyx/gdbstub.c:2848-2887 | a packet that does not fit is dropped without a reply, and the receiver is ready for the next one |
| `GdbStreams.Slips` | qemu-nyx/gdbstub.c:2836-2920 | an escape cut short leads to the checksum, and a checksum that is no number leads back to the payload |
| `GdbStreams.RunSlips` | qemu-nyx/gdbstub.c:2872-2900 | a run length that is none, or with nothing to repeat, is passed over |
| `GdbStreams.Interrupted` | qemu-nyx/gdbstub.c:2818-2821 | with nothing to be acknowledged, any byte stops a running machine and is lost; the packet in progress is left alone and what follows is read as ever |
| `GdbStreams.RunsOn` | qemu-nyx/gdbstub.c:2800-2821 | while a packet waits to be acknowledged, a machine runs on up to the first start of a packet or acknowledgement |
| `GdbStreams.Acknowledged` | qemu-nyx/gdbstub.c:2803-2817 | an acknowledgement is taken, and a request is answered with the same packet, whether the machine runs or not |
| `GdbStreams.Unexpected` | qemu-nyx/gdbstub.c:2803-2817 | everything else is passed over meanwhile |
| `GdbStreams.RoundTrip` | qemu-nyx/gdbstub.c:606-671 | for all data: escaped, framed and received, it is acknowledged and handled as the same bytes if and only if it is shorter than the packet length, and dropped otherwise |
| `GdbStreams.Conversation` | qemu-nyx/gdbstub.c:2800-2817 | over any conversation with any number of requests for retransmission, every command is handled once, in order, and every answer is sent once and once more for each request |
| `Transactions.Monitor.AddBitmap` | qemu-nyx/blockdev.c:2856-2910 | the bitmap is added if and only if name, node, granularity, persistence and length allow it; otherwise nothing changes |
| `Transactions.Monitor.MergeBitmaps` | qemu-nyx/blockdev.c:3010-3070 | if and only if target and sources can be used and have one size: a byte of the target is dirty afterwards if and only if it was, or its chunk shares a byte with a dirty chunk of some source, whatever the granularities; all other bitmaps are as before, the old bitmap is the backup, and no temporary bitmap is left; otherwise nothing changes |
| `Transactions.MergedBytes` | qemu-nyx/blockdev.c:3010-3070 | which bytes are dirty after a merge, by chunks that share a byte |
| `Transactions.EffectMeans` | qemu-nyx/blockdev.c:1951-2135 | what each action means for every bitmap, byte by byte and flag by flag: after a clear no byte is dirty, a merge adds what its sources touch, a new bitmap is clean, and all other bitmaps are as before |
| `Transactions.EffectPossible` | qemu-nyx/blockdev.c:1951-2135 | each action can be taken if and only if its bitmap is there and neither busy nor broken, nor read-only if written to, sources can be read and have its size, and a new bitmap has a new name of 1 to 1023 characters and a granularity that is a power of two of at least 512 |
| `Transactions.PowerOfTwoIs` | qemu-nyx/blockdev.c:2875-2887 | halving down to 1 finds exactly the powers of two |
| `Transactions.Monitor.PrepareClear` | qemu-nyx/blockdev.c:1993-2018 | an empty bitmap with the old one as backup, if the bitmap exists and can be used |
| `Transactions.Monitor.PrepareEnable` | qemu-nyx/blockdev.c:2038-2064 | the bitmap is enabled if it exists and can be used, and what a failure leaves in the action's state |
| `Transactions.Monitor.PrepareDisable` | qemu-nyx/blockdev.c:2076-2102 | the bitmap is disabled if it exists and can be used |
| `Transactions.Monitor.Prepare` | qemu-nyx/blockdev.c:1951-2135 | each action has its effect or none, and on success its state is enough to undo it exactly |
| `Transactions.Monitor.Abort` | qemu-nyx/blockdev.c:1978-2112 | what each abort callback does, and when it has no bitmap to work on |
| `Transactions.UndoSpoilt` | qemu-nyx/blockdev.c:2066-2074 | a bitmap that a failed enable has disabled stays disabled, and stays out of the way, while the other actions are undone |
| `Transactions.Monitor.AbortAll` | qemu-nyx/blockdev.c:2356-2362 | aborting in reverse order restores the state before the first action, also if one bitmap appears many times, but for what the failed action spoils |
| `Transactions.Monitor.Transaction` | qemu-nyx/blockdev.c:2296-2374 | it succeeds if and only if all actions can be taken one after the other; then it has taken them all, each with the meaning it has for every byte and every flag, and otherwise everything is restored if and only if the abort of the action that failed can do that, and at most one bitmap is left disabled; prepared actions are all committed in order or all aborted in reverse, then all cleaned up once; no bitmap is leaked or freed twice |
| `Transactions.EnableExample` | qemu-nyx/blockdev.c:2038-2074 | two transactions of one action: after the failure of the first the bitmaps are never what they were, and the failure of the second cannot be aborted |
| `VirtualClocks.TimersState.UpdateIcount` | qemu-nyx/cpus.c:246-264 | nothing is left to account for; neither the number of instructions executed nor guest time moves, and all of it is shown |
| `VirtualClocks.TimersState.GetIcount` | qemu-nyx/cpus.c:280-325 | on the running CPU's thread guest time, on others what has been accounted for; reading moves neither guest time nor the count; refused if the CPU must not read it now; what is shown is the bias and the count times 1, 2, 4, up to 1024 by the shift |
| `VirtualClocks.ToNsScale` | qemu-nyx/cpus.c:330-333 | for shifts from 0 to 10 an instruction is 1, 2, 4, up to 1024 nanoseconds long |
| `VirtualClocks.ToNsMore` | qemu-nyx/cpus.c:330-333 | beyond that, ten more shifts make it 1024 times as long |
| `VirtualClocks.TimersState.PrepareForRun` | qemu-nyx/cpus.c:1425-1443 | the whole budget is there to be used, in the 16-bit decrementer first, and neither the count nor time moves |
| `VirtualClocks.TimersState.RefillDecrementer` | qemu-nyx/accel/tcg/cpu-exec.c:639-648 | what is left of the budget is there to be used, the count is what was executed, and guest time does not move |
| `VirtualClocks.TimersState.ProcessData` | qemu-nyx/cpus.c:1446-1461 | the count is what was executed, guest time does not move and all of it is shown, and the counters are cleared |
| `VirtualClocks.TimersState.AdjustSpeed` | qemu-nyx/cpus.c:437-478 | on the running CPU's thread guest time stands still; on another thread the time shown stands still, and guest time moves by exactly what the instructions not accounted for gain or lose; the shift goes down by one exactly if the guest is too far ahead of the time of the machine, by the wobble and half of what it was last time, and up by one exactly if it is too far behind, and stays between 0 and 10 |
| `VirtualClocks.TimersState.StartWarpTimer` | qemu-nyx/cpus.c:666-674 | the sleep counts from now, or from when it began before |
| `VirtualClocks.TimersState.WarpRt` | qemu-nyx/cpus.c:501-540 | guest time moves by the time slept; in adaptive mode by no more, what is shown does not end beyond the time of the machine, and it ends there if it moves by less |
| `VirtualClocks.TimersState.EnableTicks` | qemu-nyx/cpus.c:401-412 | neither the time of the machine nor its ticks jump |
| `VirtualClocks.TimersState.DisableTicks` | qemu-nyx/cpus.c:418-429 | neither the time of the machine nor its ticks jump |
| `VirtualClocks.TimersState.GetTicksLocked` | qemu-nyx/cpus.c:335-350 | the ticks, or what was handed out before if that is more, so they never go back, whatever the host's counter does |
| `VirtualClocks.TicksFollow` | qemu-nyx/cpus.c:335-350 | between two reads ticks rise as the host's counter does while they are enabled, and stand still while they are not |
| `VirtualClocks.TicksPaused` | qemu-nyx/cpus.c:335-429 | what passes between disabling and enabling is not counted |
| `VirtualClocks.Moves` | qemu-nyx/cpus.c:246-540 | for every operation on every thread, how far it moves the count, guest time and the time shown |
| `VirtualClocks.Conservation` | qemu-nyx/cpus.c:1425-1461 | over any run the count grows by exactly the instructions executed, however often and on whatever thread it is read, and the shift stays in range |
| `VirtualClocks.ShownMonotone` | qemu-nyx/cpus.c:280-540 | over any run the time that threads see never goes back, if and only if no warp sets it back |
| `VirtualClocks.ReadsMonotone` | qemu-nyx/cpus.c:280-325 | over any such run, a read on any thread returns no less than any earlier read on any thread |
| `VirtualClocks.TimeMonotone` | qemu-nyx/cpus.c:437-540 | over any run guest time, with the instructions not accounted for, never goes back, if and only if no warp takes more than it gives and no adjustment on another thread lowers the speed while some are not accounted for |
| `VirtualClocks.WarpSetsBack` | qemu-nyx/cpus.c:526-536 | in adaptive mode a run in which a warp sets the time shown back, from every state in which the guest can get ahead |
| `VirtualClocks.AdjustTurnsBack` | qemu-nyx/cpus.c:437-484 | from every state in which an adjustment lowers the speed, a run without a warp in which the main loop's adjustment sets guest time back while the time shown stands still |
| `VirtualClocks.ElapsedMonotone` | qemu-nyx/cpus.c:370-429 | over any run the time of the machine goes on with the host's clock, never faster, and never goes back |
| `VirtualClocks.TicksMonotone` | qemu-nyx/cpus.c:335-350 | over any run, ticks handed out never go back |

## Left out

- IOMMU translation, Xen, accesses to devices, RCU reclamation and mapping of host memory in `exec.c`: calls into code that is not part of this model.
- The range passed to the dirty-bitmap hook at the end of `cpu_physical_memory_test_and_clear_dirty` is not modelled.
- RamLists.RamList.TestAndClearDirty: byte addresses are unbounded here, so rounding an address in the last page below 2^64 up to a page does not wrap.
- RamLists.RamList.Add: block lengths are multiples of the page size, as the callers of `ram_block_add` make them; registering the new memory with the host is not modelled.
- AccessLoops.Write: memory is RAM throughout; the write of a value to a device region and the combined result of several accesses are not modelled.
- ExclusiveSection.MutualExclusion: the flag for being in an exclusive context, CPU hotplug and kicks of running CPUs are not modelled; `start_exclusive` is called from outside execution only, as its comment asks.
- MapClients.NoForgottenClient: what is copied through the bounce buffer, and mappings that need none, are not modelled.
- BlockLayers.BlockLayer.CheckPerm: drivers with a private check callback have no children here, and reopen queues are not modelled.
- BlockLayers.BlockLayer.TrySetPerm: if a node below is entered twice, the order of visits decides whether an update that could be granted is; the model has conditions that are necessary for success and for failure there, not an exact one.
- BlockReplacement.ReplaceNode: the same holds below the new node; draining, AioContexts and the deletion of a node with no references left are not modelled.
- Roll-back of permissions in `bdrv_reopen_multiple`, attaching and detaching children, and image opening in `block.c`.
- GdbReader.GdbState.ReadByte: the running checksum is an unbounded integer, and command handlers are functions from the line to at most one reply.
- Handling of single GDB commands, and the splitting of monitor output into packets.
- Transactions.Monitor.Transaction: bitmaps in storage, snapshot, backup and remove actions, and transactions grouped with jobs are not modelled; in a grouped transaction every action here fails, as in the source.
- VirtualClocks.TimeMonotone: counters are unbounded integers; deadlines, record and replay, and the advance of the clock without sleeping are not modelled. One CPU at a time has a budget, as with the single thread for all CPUs.
- The work queue of `cpus-common.c`, and all other files of the repository.
