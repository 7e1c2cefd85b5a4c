# GuardRails, verified

GuardRails replaces the C library allocator with one that finds memory errors through the MMU. Every
allocation sits in a power-of-two block of whole pages, pushed up against a guard page that may never be
touched. Freed blocks can spend a while in quarantine with all access taken away. What alignment leaves
between the data and the guard page is filled with magic bytes that `free` checks.

This project models that allocator down to the bytes of its headers, and proves that it does what it is for.

## How the model is built

The address space is an object holding typed memory cells and the set of inaccessible addresses. Headers, list
links, back pointers, guard words, slop and user data all live in those cells; loads and stores of the
allocator go through methods that demand mapped and accessible addresses, so every proof of an allocator
method is also a proof that it never touches a protected page.

| file | what it holds |
|---|---|
| `Bits.dfy` | `log2fast`, `IS_POW2` and masking, bit by bit, and small arithmetic |
| `Memory.dfy` | the address space, `mmap`, `mprotect`, header and word access |
| `Lists.dfy` | the intrusive doubly linked lists |
| `Heap.dfy` | blocks, owners, the global invariant `Inv`, and the client's view of the heap |
| `Steps.dfy`, `Evolve.dfy`, `Moves.dfy` | the elementary steps: each keeps `Inv`, and leaves the other blocks alone |
| `Accounting.dfy`, `Ties.dfy`, `Slots.dfy` | the counters of a slot as folds over its history, and their agreement with the lists |
| `DelayFree.dfy` | the quarantine ring and its schedule |
| `Pools.dfy`, `Layout.dfy`, `UserData.dfy` | pool tiling and growth, where user data goes, and writing it there |
| `Calls.dfy`, `Runs.dfy` | what one call does to the heap, and what any number of calls adds up to |
| `Allocator.dfy` | the allocator itself, from `addNewMemPool` to `realloc`, as methods of one class |
| `Safety.dfy` | what holds in any one state: separation, protection, overruns |
| `Interleaving.dfy`, `Progress.dfy` | threads: every unlocked access and every list move as its own step; quarantine, deadlock and the length of calls under interleaving |
| `Quiescence.dfy` | the link between the two: threads may start from any state the calls leave |
| `Debugger.dfy` | `gr-find-header` and `gr-heap-meta-corruption` |

`Heap.Inv` is the invariant at the centre. Every carved block is on exactly one list, the one its header and
its owner name; free and in-use lists are well linked through memory; every guard page is inaccessible and
every other page of a block is inaccessible exactly while the block is queued; headers, back pointers and sizes
say what was handed out; and blocks, guard pages and the uncarved rest of the pool do not overlap.
`Allocator.GuardRails.Valid` adds the counters, the histogram, the rings and the pools. The ring capacity is a
parameter (any multiple of four); 32768 is an instance.

## Where the code is not what one would expect

- The exit report divides by zero exactly when nothing has ever been allocated (`Accounting.EfficiencyReport`;
  GuardRails.c:908-915), which a process that only loads and unloads the library reaches if the messages of
  `initialize` do not allocate (`Allocator.IdleProcess`).
- The repository's README (README.md:55-58) promises a segmentation fault for any use after free. Inside carved
  blocks an access faults exactly if it hits a guard page or the block is in quarantine
  (`Safety.ProtectionExact`), and a block is in quarantine only with delayed frees enabled, and only until a later
  free into its slot that is between the (N/4 + 1)-th and the (N/2 + 1)-th (`DelayFree.QuarantineWindow`). A second free succeeds exactly if
  the block has meanwhile been handed out again under the same pointer (`Runs.SecondFree`,
  `Runs.ReissueUntraps`).
- Overruns that stop short of the guard page are noticed only in the first 32 bytes, only at `free`, and only if a
  byte there is no longer the slop value. If the alignment is at most 32 those bytes are the whole gap, so an
  overrun of less than a page goes unnoticed exactly if it writes nothing but slop bytes into the gap
  (`Safety.OverrunCaught`); for larger alignments `Safety.OverrunVerdict` says exactly which bytes are watched.
- The README (README.md:379-380) says that state is dumped when the high-water mark has grown by the interval
  or more. The code dumps only when it has grown by more than the interval (GuardRails.c:378-379), so the promise
  is kept exactly if the growth is not the interval itself (`Accounting.DumpPromise`), and a first allocation of
  exactly the interval breaks it (`Accounting.DumpMissed`).
- The header search of the debugger is exact unless a page inside the block happens to start with one of the
  two header magics, and then it is wrong (`Debugger.WalkFindsHeader`, `Debugger.DecoyStored`).

## Model

| member | source | states |
|---|---|---|
| Bits.IsPow2Exact | GuardRails.h:30 | the bit trick accepts exactly the powers of two |
| Bits.ClzBrackets | GuardRails.c:149-152 | the leading-zero count brackets a word between two powers of two |
| Bits.Log2FastCeiling | GuardRails.c:143-154 | log2fast is the ceiling of the binary logarithm for every 64-bit word |
| Bits.Log2FastMono | GuardRails.c:143-154 | log2fast is monotone |
| Bits.AndMask | grgdb.py:234-235 | masking with 2^n - 2^k clears exactly the low k bits |
| Memory.AddressSpace.Mmap | GuardRails.c:163-177 | the kernel refuses and changes nothing, or maps a fresh, zeroed, page-aligned region |
| Memory.AddressSpace.PostGuard | GuardRails.c:224-237 | the guard page gets its magic word and becomes inaccessible; nothing else changes |
| Lists.InsertElmHead | GuardRails.c:113-122 | the list in memory is the old one with the element in front; only link fields change |
| Lists.RmElm | GuardRails.c:124-141 | the list in memory is the old one without the element, wherever it was; only link fields change |
| Steps.DetachInv | GuardRails.c:124-141 | taking a block off a free or in-use list keeps the heap invariant |
| Steps.AttachInv | GuardRails.c:113-122 | putting a loose block on the list its owner names keeps it |
| Steps.CutInv | GuardRails.c:218-237 | carving an extent keeps it, and the extent is zeroed, accessible, guarded and apart from everything |
| Steps.GrowInv | GuardRails.c:188-195 | a fresh pool keeps it |
| Steps.AdoptInv | GuardRails.c:264-266 | writing the first header turns an extent into a block and keeps it |
| Steps.QuarantineInv | DelayFree.c:103-107 | queueing a block and taking all access away keeps it |
| Steps.UnquarantineInv | DelayFree.c:60-88 | taking the oldest block out of the ring makes it loose and accessible and keeps it |
| Evolve.EvolvesClient | GuardRails.c:331-430 | whatever a step does to one block, every other live pointer keeps its bytes, and no pointer appears or disappears |
| Accounting.HighWaterIsMaximum | GuardRails.c:372-375 | the mark, recomputed only on allocation, is the maximum over the whole history |
| Accounting.DumpSpacing | GuardRails.c:377-382 | dumps * (interval + 1) <= last dump mark <= mark <= last dump mark + interval |
| Accounting.DumpPromise | GuardRails.c:378-379 | an allocation dumps exactly if the mark is more than the interval ahead; the documented condition agrees exactly if it is not just the interval ahead |
| Accounting.DumpMissed | README.md:379-380 | a first allocation of exactly the interval is not dumped |
| Accounting.EfficiencyOrder | GuardRails.c:341-372 | requested <= power-of-two bytes <= bin bytes <= bin bytes with guards, and both histograms count alike, for every history |
| Accounting.NetAddsUp | GuardRails.c:864-887 | per-bin requested minus freed bytes add up to the slot's |
| Accounting.TotalsMean | GuardRails.c:857-901 | every total of the report, added up bin by bin, is the sum over all allocations and frees of what each contributes |
| Accounting.EfficiencyReport | GuardRails.c:908-915 | the percentages are ordered and at most 100; division by zero exactly when nothing was allocated |
| Accounting.PercentFloors | GuardRails.c:908-915 | each percentage is its own ratio, rounded down |
| Ties.Census | GuardRails.c:244-272 | blocks carved for a slot and bin = free + in use + delayed |
| DelayFree.MemFreeDelay.CircCount | DelayFree.c:33-43 | numDelayed is the distance from tail to head around the ring; empty and full mean 0 and N - 1 |
| DelayFree.MemFreeDelay.CircPut | DelayFree.c:45-53 | the queue gains the header at its end; bytesDelayed stays the sum of the block sizes |
| DelayFree.MemFreeDelay.CircGet | DelayFree.c:55-72 | the queue loses its oldest header, whose first page becomes accessible |
| DelayFree.MemFreeDelay.PutInaccessible | DelayFree.c:103-107 | queueing takes away access to exactly the block |
| DelayFree.MemFreeDelay.GetAccessible | DelayFree.c:77-88 | dequeuing gives access to exactly the block back, in one or two calls |
| DelayFree.DrainSchedule | DelayFree.c:74-101 | every drain releases exactly N/4 + 1 blocks, and drains are N/4 + 1 puts apart |
| DelayFree.QueueBound | DelayFree.c:96-103 | at most N/2 + 1 blocks are queued, so the ring never fills, and fewer are released than put |
| DelayFree.QuarantineWindow | DelayFree.c:74-108 | the k-th block put is queued exactly until put number ReleaseAt(k), which is between k + N/4 + 1 and k + N/2 + 1 |
| DelayFree.QuarantineShipped | GuardRails.h:124 | for N = 32768: it comes out during a later put from number 8193 to number 16385 |
| Pools.TilesCover | GuardRails.c:218-222 | blocks and guard pages tile the carved part of a pool without gaps |
| Pools.TilesDisjoint | GuardRails.c:218-222 | and without overlaps |
| Pools.GrowthIsEnough | GuardRails.c:156-220 | after growth the request fits, with not a byte to spare exactly when it reaches the minimum expansion |
| Pools.AfterBounds | GuardRails.c:204-216 | n blocks take at most n new pools, and more blocks never take fewer |
| Pools.RoomIsEnough | GuardRails.c:207-216 | no new pool is taken exactly if all of the blocks and their guard pages fit into what is left of the current one |
| Pools.NewPoolHolds | GuardRails.c:207-210 | a new pool holds 1048576000 bytes or the block it is for, whichever is more, and one page |
| Pools.PoolsTaken | GuardRails.c:204-218 | exactly how many pools n blocks of one bin take: none while they fit, then one for every 1048580096 / (2^b + 4096) of the rest, or for every one if they are larger than the minimum expansion |
| Pools.MixedPools | GuardRails.c:204-218 | for any mixture of bins, every new pool but the last gives all but the size of the largest block and guard page to blocks |
| Pools.CarveShows | GuardRails.c:218-222 | carving keeps total = carved + remaining and startFree at the end of the tiles |
| Layout.BinIsTight | GuardRails.c:332-342 | the bin is the least power of two, of at least a page, that covers the request |
| Layout.BinSmallest | GuardRails.c:608-611 | the bin of a request is k or smaller exactly if header, back pointer, data and alignment fit into 2^k bytes, for every k from 12 |
| Layout.LayoutFits | GuardRails.c:608-664 | header, traces and back pointer end before the data, which is aligned and with its misalignment ends at the guard page |
| Layout.MallocGap | GuardRails.c:678-691 | the gap malloc leaves before the guard page is what rounds the size up to a multiple of 16, or of 8 for sizes up to 8 |
| Slots.MemSlot.constructor | GuardRails.c:66-74 | a slot starts with empty bins, an empty ring and counters that match an empty history |
| Slots.ClassIsTight | GuardRails.c:350 | the histogram column of a size is the least power of two that covers it |
| Slots.MemSlot.CountGet | GuardRails.c:349-382 | histogram, byte counts, high-water mark and dump bookkeeping stay what the history says |
| Slots.MemSlot.CountPut | GuardRails.c:412-415 | the same for a free |
| Slots.NetNonNegative | GuardRails.c:373-375 | requested minus freed bytes never underflows |
| Slots.TookTies | GuardRails.c:364-368 | counters and lists still agree after an allocation's list move |
| Slots.LeftTies | GuardRails.c:412-417 | and after a free's |
| UserData.Furnish | GuardRails.c:625-670 | the block gets its header fields, back pointer, slop and poison, and no other byte changes |
| UserData.CommitInv | GuardRails.c:625-670 | a furnished block is a live allocation and the heap invariant holds |
| UserData.StampInv | GuardRails.c:401-403 | marking a live block as free keeps the heap invariant |
| UserData.SlopKept | GuardRails.c:646-658 | a step about one block leaves everybody else's slop alone |
| Calls.IssuedOnce | GuardRails.c:661-664 | a pointer leads back to one block only |
| Calls.BystanderLives | GuardRails.c:331-430 | an allocation that a call is not about stays live, with its bytes, its block and its slop |
| Calls.StoreInv | GuardRails.c:700 | writing inside a live allocation keeps the invariant and changes only its bytes in the client's view |
| Allocator.GuardRails.constructor | GuardRails.c:65-74 | the zeroed globals are a valid, unused allocator |
| Allocator.RoundRobin | GuardRails.c:344-347 | until the counter wraps, any numSlots requests below a megabyte in a row are served by as many different slots |
| Allocator.GuardRails.PickSlot | GuardRails.c:344-347 | requests below a megabyte take the next slot in turn and advance the counter modulo 2^64; larger ones take slot 0 and leave it |
| Allocator.GuardRails.AddNewMemPool | GuardRails.c:156-198 | the new pool is current, fresh and of the rounded size; it fails exactly if the kernel refuses and aborts exactly if the pool table is full; it is a whole number of pages, and more than was asked for by at most one |
| Allocator.GuardRails.GetFromPool | GuardRails.c:200-242 | the returned extent is zeroed, guarded, nobody's, and the next tile of its pool, which is a new one exactly if the current one is too small; it fails exactly if the kernel refuses that one and aborts exactly if there is no place for it in the table; a new pool holds the larger of 1048576000 bytes and the block, and a page |
| Allocator.GuardRails.ReplenishBin | GuardRails.c:244-272 | an empty or low bin is filled to its high-water mark by new free blocks and nothing else changes; the pools end up exactly where carving that many blocks takes them; it fails exactly if the kernel refuses one of the new pools, and otherwise aborts exactly if the table is too small for them; with a free block at hand and not fewer than the low-water mark nothing at all changes, and otherwise the bin ends with its high-water mark or one block more than before, whichever is larger |
| Allocator.GuardRails.ReplenishBins | GuardRails.c:274-284 | bins 0 to 17 are brought up to their targets in order, stopping with failure at the first the kernel has no memory for; pools and abort as for the sum of the refills |
| Allocator.GuardRails.ReplenishSlots | GuardRails.c:286-296 | the same for every slot; a slot's failure is ignored, and without one every slot is full, and the pools used and the abort are exactly those of all refills in order; with or without, no more pools are taken than blocks |
| Allocator.GuardRails.InitBinsMeta | GuardRails.c:298-329 | the result is the number of pool bytes the initial stock will take |
| Allocator.GuardRails.Initialize | GuardRails.c:540-598 | one pool, 200 free blocks in each of bins 12 to 17 of every slot with water marks 100 and 200, none elsewhere, and 56524800 bytes a slot and a page left over; it aborts exactly if the kernel refuses the pool |
| Allocator.GuardRails.GetBufFrom | GuardRails.c:352-393 | the bin is refilled, a free block moves to the in-use list, everything is counted; pools, failure and abort as for the refill; the bin ends with one block less than the water marks say, and no small bin runs low |
| Allocator.GuardRails.GetBuf | GuardRails.c:331-397 | a block of the right bin and slot that was free or new is granted, end is its guard page, only its slot's history grows, and no other block is disturbed; the pools end up exactly where the refill of that bin takes them, it fails exactly if the kernel refuses one of them, and otherwise aborts exactly if the table is too small for them; slots are taken in turn |
| Allocator.GuardRails.MemalignInt | GuardRails.c:600-671 | one Gain effect: a new live pointer, aligned and as close to the guard page as that allows, slop set; NULL exactly if the kernel refuses a pool, and otherwise an abort exactly if the refill takes more pools than the table has places; the block is the smallest power of two, of at least a page, that holds header, back pointer, data and alignment |
| Allocator.GuardRails.Memalign | GuardRails.c:673-676 | the same |
| Allocator.GuardRails.Malloc | GuardRails.c:678-691 | the same, aligned to 16, or to 8 for sizes up to 8, with fewer than 16, or 8, bytes to the guard page |
| Allocator.GuardRails.PosixMemalign | GuardRails.c:748-761 | EINVAL exactly for bad alignments, ENOMEM exactly if the kernel refuses, otherwise an allocation, with pools and abort as above |
| Allocator.GuardRails.Calloc | GuardRails.c:693-702 | one Gain effect with nmemb * size zero bytes, placed like any allocation; pools, failure and abort as for malloc |
| Allocator.GuardRails.Realloc | GuardRails.c:704-717 | a Gain and then a Lose effect: the new block starts with the first min(new, old) bytes of the old one, which alone leaves the client's view; failure leaves everything alone; otherwise an abort exactly if the refill takes more pools than the table has places or the old slop is damaged |
| Allocator.GuardRails.Free | GuardRails.c:719-746 | faults for a quarantined block, aborts for a free one or damaged slop, and otherwise is one Lose effect of exactly this pointer |
| Allocator.GuardRails.PutBuf | GuardRails.c:399-430 | exactly the block's pointer leaves the client's view; the block goes to the ring or the free list of its own slot |
| Allocator.GuardRails.UnlinkUsed | GuardRails.c:407-417 | the block comes off the in-use list wherever it was and the free is counted |
| Allocator.GuardRails.DrainOne | DelayFree.c:76-93 | the oldest block goes from the ring to the free list of its bin, accessible again |
| Allocator.GuardRails.DelayFreeBatch | DelayFree.c:74-94 | the ring keeps exactly its newest N/4 blocks if it had more |
| Allocator.GuardRails.DelayPut | DelayFree.c:96-108 | the ring stays on its schedule and the block joins it, inaccessible |
| Allocator.GuardRails.QuarantinedUntil | DelayFree.c:74-108 | a block of a slot is in quarantine exactly if one of its puts is not yet due |
| Allocator.GuardRails.NotReissued | GuardRails.c:364-366 | until the (N/4 + 1)-th later put into its slot a freed block is inaccessible and no allocation is granted it |
| Allocator.GuardRails.Conserved | GuardRails.c:362-426 | carved = numFree + (allocs - frees) + delayed, for every slot and bin |
| Allocator.GuardRails.NeverLow | GuardRails.c:255-269 | between calls, whether or not the kernel refuses memory, bins 12 to 17 of every slot have at least 99 free blocks |
| Allocator.GuardRails.HighWaterMarks | GuardRails.c:372-382 | HWMUsrBytes is the exact maximum of requested minus freed, and the dump marks keep their distance |
| Allocator.GuardRails.ClientWrite | GuardRails.c:670 | a program that writes a byte of a live allocation changes that byte and nothing else anybody can see |
| Allocator.GuardRails.ClientOverrun | GuardRails.c:646-657 | a program that writes a byte between its data and the guard page leaves the allocator ready for every later call |
| Allocator.GuardRails.WalkInUse | GuardRails.c:874-886 | the walk ends after one record per block in use, each with the size the user asked for |
| Allocator.GuardRails.ReportSlot | GuardRails.c:857-901 | allocs - frees records, whose sizes add up to requested - freed |
| Allocator.GuardRails.ClassesExact | GuardRails.c:350-371 | the size class of every allocation and free in the history is the least power of two that covers its size |
| Allocator.GuardRails.OnExitHelper | GuardRails.c:857-922 | the same over all slots; every total is the sum of what each allocation and free contributes, and the three percentages are their own ratios rounded down, ordered and at most 100 |
| Allocator.IdleProcess | GuardRails.c:908-936 | loading and unloading the library without an allocation in between divides by zero |
| Safety.LayoutSeparated | GuardRails.c:608-664 | header and traces, back pointer, data, slop and guard page of a live allocation follow each other without overlap |
| Safety.LiveBytesExclusive | GuardRails.c:331-397 | a byte of a live allocation belongs to no other block |
| Safety.UseAfterFreeFaults | DelayFree.c:103-107 | every access to a quarantined block faults |
| Safety.ProtectionExact | GuardRails.c:224-237 | inside carved extents an address is inaccessible exactly if it is in a guard page or its block is in quarantine |
| Safety.OverrunVerdict | GuardRails.c:730-735 | however much of the gap is overwritten, the heap stays consistent, nobody's data changes, and only this allocation's free fails, exactly if one of the first 32 bytes is not slop |
| Safety.StrayVerdict | GuardRails.c:730-735 | one stray byte is noticed exactly if it is one of the first 32 and not the slop value |
| Safety.OverrunCaught | GuardRails.c:646-664 | for alignments up to 32 every overrun of less than a page faults on the guard page, or changes only the gap and leaves a consistent heap in which the free aborts exactly if some byte of the gap is no longer slop |
| Runs.StepRefines | GuardRails.c:600-746 | from what a call does to one block's record and bytes: it is one step of a map from live pointers to bytes, and keeps slop intact |
| Runs.RunRefines | GuardRails.c:600-746 | every run of calls, reallocs included, refines that map, whatever its length |
| Runs.SlopNeverFires | GuardRails.c:730-735 | no run of a program that writes in bounds ever fails the slop check |
| Runs.SecondFree | GuardRails.c:719-746 | a second free succeeds exactly if the last thing that happened to the block since is that it was handed out again as the same pointer |
| Runs.DoubleFreeTrapped | GuardRails.c:719-746 | over any run that does not hand the block out again, a second free faults in quarantine and aborts on a free list |
| Runs.ReissueUntraps | GuardRails.c:719-746 | once the block is handed out again as the same pointer, the stale free goes through |
| Interleaving.StepKeeps | GuardRails.c:331-430 | every step of every thread keeps the heap invariant and the discipline of locks and hands |
| Interleaving.NeverAborts | GuardRails.c:200-413 | no assertion of the pool carver, getBuf, memalignInt, free, putBuf or the full ring fails at the point where a thread stands, whatever the others do, except that on the number of pools (GuardRails.c:189) |
| Interleaving.NeverFaults | GuardRails.c:200-430 | all a thread is about to touch is mapped and accessible, the extent it may carve and the oldest block of the ring included, and every list it relinks is intact |
| Interleaving.WindowsExact | GuardRails.c:364-417 | the headers on in-use lists with the free magic are exactly those held in the two windows |
| Interleaving.NoSharing | GuardRails.c:352-428 | no block is in the hands of two threads, or of a thread and the program |
| Interleaving.InterleavedCensus | GuardRails.c:244-430 | with threads too, while nobody holds a slot's lock, the blocks carved for it and a bin are those on its free list, on its in-use list, and in its ring |
| Interleaving.InterleavingSafe | GuardRails.c:331-430 | all of this, the two windows included and with the same exception, in every state of every interleaved run, with every ring bounded by N/2 + 1 |
| Interleaving.ThreadStepRefines | GuardRails.c:600-746 | a malloc takes effect at its fill, a free at its stamp, and no other step is visible |
| Interleaving.FillPlaced | GuardRails.c:600-671 | with threads too, malloc returns a live pointer in the smallest bin that fits, aligned, as close to the guard page as that allows, with its slop set |
| Interleaving.InterleavingRefines | GuardRails.c:600-746 | every interleaved run refines the map from live pointers to bytes |
| Progress.RunScheduled | DelayFree.c:74-108 | in every state of every interleaved run every ring is a suffix of its slot's puts, as long as the schedule says for where the lock holder stands |
| Progress.InterleavedQuarantine | DelayFree.c:74-108 | with threads too, a block is in a ring between puts exactly if one of its puts is not yet due |
| Progress.StaysOut | GuardRails.c:364-366 | with threads too, even in the middle of a put, a freed block is inaccessible and in nobody's hands for N/4 later puts |
| Progress.FreeLands | GuardRails.c:418-428 | with threads too, the step that ends a free puts the block at the end of its slot's ring if frees are delayed, and otherwise at the front of the free list of its own slot and bin |
| Progress.RunOnRoute | GuardRails.c:418-428 | no thread is ever in the delaying half of a free without delayed frees, or in the other half with them |
| Progress.RingsIdle | GuardRails.c:418-428 | without delayed frees no interleaved run ever changes a ring |
| Progress.InterleavedStock | GuardRails.c:255-269 | with threads too, a bin with water marks 100 and 200 never has fewer than 99 free blocks |
| Progress.CanMove | GuardRails.c:352-429 | a thread inside the allocator can always take its next step, unless it waits for a slot's lock |
| Progress.NeverDeadlocked | GuardRails.c:352-429 | while some thread is inside the allocator, some thread inside it can move |
| Progress.OwnRank | GuardRails.c:244-430 | each step a thread takes inside the allocator lowers a bound on those still to come |
| Progress.OthersRank | GuardRails.c:244-430 | no step of another thread raises it |
| Progress.CallsEnd | GuardRails.c:244-430 | in every interleaved run a call returns after a bounded number of its own steps |
| Progress.CallsStart | GuardRails.c:244-430 | a free starts with a bound of N + 11, an allocation with 10 and two per block it may carve |
| Quiescence.CalmStarts | GuardRails.c:540-598 | any state the single-threaded calls leave is one from which threads may start |
| Quiescence.CalmScheduled | DelayFree.c:74-108 | with the rings on the same schedule in both models |
| Quiescence.RefillAgrees | GuardRails.c:255-269 | a thread starts to carve exactly if the sequential refill would carve anything, and goes on exactly below the high-water mark |
| Quiescence.CalmStock | GuardRails.c:298-329 | threads find every small bin with its water marks and in stock |
| Debugger.FindHeader | grgdb.py:224-250 | the walk stops at the nearest page that starts with a header magic, if it can be reached |
| Debugger.HeapMetaCorruption | grgdb.py:276-295 | the verdict is that of the guard page behind the header found; without a header, or without the guard magic behind it, there is none |
| Debugger.WalkFindsHeader | grgdb.py:230-250 | from anywhere in a block or its guard page the walk finds that block's header exactly if no page in between starts with a magic |
| Debugger.CorruptionExact | grgdb.py:287-295 | the guard check succeeds, and corruption is reported exactly for the guard page |
| Debugger.DecoyHides | grgdb.py:238-250 | user data that starts a page with the in-use magic hides the header |
| Debugger.DecoyBlinds | grgdb.py:276-295 | the command then fails exactly unless the page also carries a bin number that leads to a guard page, where it would have reported no corruption |
| Debugger.DecoyStored | grgdb.py:238-250 | one store of that word, inside an allocation that covers the page start, produces such a state |

## Left out

- Integer widths: sizes, counters and addresses are unbounded. The program is assumed not to make
  `ELM_HDR_SZ + 8 + size + alignment` or `nmemb * size` overflow (GuardRails.c:610, GuardRails.c:695).
- Allocator.GuardRails.Malloc: requests whose bin would be 40 or more are excluded, here and in every other
  allocation call, because `getBuf` indexes its bins with that number without checking it (GuardRails.c:341,
  GuardRails.c:362).
- Allocator.GuardRails.Free: pointers that this allocator never issued, and pointers issued from a block that
  has since been issued under another pointer, are excluded; the code then reads whatever is there.
- Allocator.GuardRails.Realloc: a pointer that is not live is excluded; the code copies from it before it checks.
- Allocator.GuardRails.AddNewMemPool: `mlock`, resource limits and the options to abort when memory runs out are
  not modelled; running out of pools aborts.
- Allocator.GuardRails.GetBuf: the limit on requested bytes (`-M`) is not modelled.
- Allocator.GuardRails.Initialize: argument parsing, signal handling and mutex set-up are not modelled, nor is
  the lazy call from `memalignInt`; every call comes after initialization.
- Backtraces: trace slots are part of the header size but their contents are not modelled.
- Dumps from inside `getBuf`: they are counted, not written. A dump taken there sees a header whose size is
  still that of its previous use, so the leak report is proved between calls only.
- The request histogram is one row per slot object instead of a global table.
- Bins, pools and histogram entries are values in sequences held by their slot or allocator; block headers are
  objects in the modelled memory, identified by address, and are updated in place there.
- Interleaving.StepKeeps: a pool operation, a list move, and the writes of `memalignInt` into its own block are
  single steps; mixed accesses to different fields of one header are not split further. The exit report, the
  slot counters, the ring's head and tail indices with their count check (DelayFree.c:41), and the pool table do
  not appear in the thread model, and it is not shown that a call of `Allocator` is a run of a single thread.
- Runs.SecondFree: a block handed out again under another pointer is excluded, since the word before the old
  pointer is then part of somebody's data.
- Progress.NeverDeadlocked: dumps from inside `getBuf` are excluded, since they take every slot's lock while
  holding one (GuardRails.c:381, GuardRails.c:857-858); fairness of the locks is not modelled.
- Allocator.GuardRails.InitBinsMeta: stated for initialization, its only use, on slots that have not been used.
- The assertions on the header size (GuardRails.c:547-548) run before the arguments that determine it are
  parsed, so they check only the default. They are not modelled; any header size of at least the fixed part is
  allowed.
- `valloc`, `pvalloc`, `aligned_alloc`: they abort on entry.
- `gr-find-delay-list`, `gr-print-addr-info`, `gr-dump-in-flight`, `grdump.py`, `test.c` and the scripts.
