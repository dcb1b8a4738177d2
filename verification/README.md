# Verification of the JS runtime's allocator, index, socket and mapping code

A Dafny model of the parts of the repository whose correctness is hardest to see, with proofs.

- **The span allocator** (`rpmalloc.c`). `SpanProtocol` makes every atomic access of the owner and of any number of
  other threads a step; `SpanSafety`, `SpanOwner`, `SpanRemote` and `SpanTheorems` prove what every interleaving
  keeps, `SpanProgress` what each operation comes to in every interleaving, and that none is ever stuck, and
  `SpanUse` what a step does to the blocks users hold. `DeferredStack` puts the classes of a heap and its
  large and huge spans on the one stack they share, and `StackProgress` says what a push and the owner's walk of it
  come to. `SpanMemory` has the pointer structures below it.
  `SuperSpan`, `SuperSpanSafety`, `SuperSpanTheorems` and `SpanMapper` are the regions, reserves and
  `remaining_spans`, and `SpanAddresses` says where spans lie; `GlobalCache`, `SpanCaches` and `HeapCaches` are the
  caches; `SizeClass`, `Blocks`, `AlignedBlocks` and `Reallocation` the arithmetic of blocks. `Allocator` puts all of
  it together, any number of heaps and classes over one stock of regions: no two live allocations overlap, in any
  run. `AllocatorCaches` shows that the caches, as they are in place, hand out what its steps need.
- **The LSM index handle** (`pup.c`). `PupOrder` and `PupMerge` are the order of rows, sort, deduplication and
  merge; `PupToc` the sparse page index; `PupHandle` the handle with its memtable, runs, cursor, views and range
  scans; `PupTheorems` what whole histories of calls come to.
- **The script bundle** (`jsrcpack.js`, `require.c`). `Ustar`, `Archive` and `Unarchive`: writing a ustar archive,
  reading it, and that one undoes the other. The format is that of POSIX.1-2017, `pax`, "ustar Interchange Format".
- **The socket's write side** (`net.c`, `buf.c`). `Buf` is the byte cursor; `SocketModel` and `SocketSafety` the
  state machine with handlers that call back; `Socket` the class.
- **Mapping ownership** (`io.c`). `MapOwner`, `MapSafety` and `Maps`.

`Options`, `Bytes` and `Division` hold what several of them share.

Code that updates in place is a class or a method over arrays, proved equal to a function of the old state; the
theorems are about those functions, over every run. Concurrent code is a transition system.

Some properties the code seems meant to have are false in general. Each is kept as the code has it, with a concrete
input or state and the exact condition:

- On wh128 a run with rows of a key before a page that starts with one makes a range start late and a lookup return
  a later row, unless the first of them starts its page (`PupToc.StraddleExample`, `PupToc.OnTwoPagesExample`; the
  exact condition is in `PupToc.LateExactly`, `PupToc.RangeStartExact` and `PupToc.LookupExact`).
- A `drain` handler that writes and then ends lets the FIN overtake the bytes, and one that destroys sends the FIN
  after the close (`SocketSafety.OvertakenExample`, `SocketSafety.DestroyedExample`, `SocketSafety.FlushedKeeps`; over
  runs `SocketSafety.LateFinExactly` and `SocketSafety.DeadFinExactly`).
- The slot generation does not protect a mapping made by C code from a JS wrapper of the same generation, slot and
  address (`MapSafety.InsideExample`, `MapSafety.DieExactly`).
- With large pages a new heap can overwrite the global reserve, as with pages of 128 spans, though not with pages of
  256 (`SuperSpanTheorems.OverwriteExample`; `SuperSpanTheorems.NewHeapExactly` says for which states, and
  `SuperSpanTheorems.LosesExactly` for which configurations).
- Padding a size to 512 in 32-bit arithmetic goes wrong from 2^31 - 511 on (`Archive.RoundExact`).
- A buffer spliced with bytes of its own that the splice moves pastes other bytes (`Buffer.SelfPaste`; exactly when
  is `Buffer.PasteKept`).

## Model

| member | source | states |
|---|---|---|
| SpanTheorems.StepKeeps | rpmalloc.c:1375-1391 | Each atomic exchange, load, store or compare-and-swap of the owner or of any remote thread keeps the invariant of the block protocol, from any state that has it |
| SpanTheorems.StartKeeps | rpmalloc.c:1345-1372 | A heap with all spans cached and nobody inside the allocator has the invariant |
| SpanTheorems.EveryRun | rpmalloc.c:2147-2194 | So does every state of every interleaving of allocations and frees by the owner and any number of other threads |
| SpanTheorems.BlockInOnePlace | rpmalloc.c:2465-2484 | In every reachable state a block of an active span is held by the user, in one thread's hand, on the span free list, the class free list or the deferred list, or not initialised: exactly one of these, and once; while INVALID_POINTER is not in the word, the word is the deferred list and list_size its length |
| SpanTheorems.CountersAtRest | rpmalloc.c:2147-2183 | Between owner operations used_count is the initialised blocks less the span free list, list_size the length of the deferred list, a span is on the partial list exactly if it is not fully utilised, and full_span_count counts the others |
| SpanTheorems.InactiveUnused | rpmalloc.c:2421-2451 | A span that is not active has no block held by a user, none in any thread's hand, no lock holder and no share in the class free list |
| SpanTheorems.OnlyTwoRetire | rpmalloc.c:2426-2450 | No step but the owner's unlinking and the release by a remote thread that saw every block deferred retires a span |
| SpanTheorems.RetiredByOwner | rpmalloc.c:2436-2451 | The owner retires one span, once, when nobody has a block of it or is inside it |
| SpanTheorems.RetiredByRemote | rpmalloc.c:2469-2483 | A remote thread retires the span it found completely deferred, and only then; nobody has a block of it any more |
| SpanTheorems.RetiredUnused | rpmalloc.c:2422-2484 | Whatever the step, a span is retired only when no user holds a block of it and nobody is left inside |
| SpanTheorems.RetiredOnceALife | rpmalloc.c:2422-2484 | In every run a span is retired exactly as often as it was initialised, less one while it is active: never twice in a life |
| SpanTheorems.TestsExclude | rpmalloc.c:2436-2448 | Once the owner has seen used_count equal list_size, no remote thread can find list_size equal to block_count, or still be freeing a block of the span |
| SpanTheorems.NeverStranded | rpmalloc.c:2475-2483 | With the remote threads idle a fully utilised span still has a block with a user or on the class free list: none is lost with every block freed |
| SpanProgress.CompareExactly | rpmalloc.c:2434-2449 | After a free the owner goes on to retire the span exactly if no block of it is with a user, in any thread's hand or on the class free list, and takes INVALID_POINTER first exactly if blocks are deferred |
| SpanProgress.FreeComesTo | rpmalloc.c:2421-2451 | If the owner has freed a block and no block of the span is out then, the span is in the cache and retired once more at the end of that free, however the other threads interleave |
| SpanProgress.FreeEnds | rpmalloc.c:2421-2451 | And that free can always be brought to that end |
| SpanProgress.FreedIsBack | rpmalloc.c:2422-2484 | A block freed, by the owner or by another thread, is with no user again before the owner begins another allocation, however the steps interleave |
| SpanProgress.AllocationFetches | rpmalloc.c:2147-2183 | Blocks deferred when a slow allocation takes its block are on the span's own free list at the end of that allocation, however it comes to it |
| SpanProgress.AllocationServed | rpmalloc.c:2147-2194 | Between its operations the owner can allocate, from the class list, from the first partial span, which always has a block listed or not yet laid out, or from a cached span; unless all spans of the class are full and none is cached |
| SpanProgress.AllocatesAtOnce | rpmalloc.c:2147-2223 | The fast path, and the first block of a new span, give at once a block that no user had |
| SpanProgress.AllocationGives | rpmalloc.c:2147-2183 | A slow allocation ends with the block it took in its user's hands, whatever other threads free meanwhile, unless they free that one |
| SpanProgress.AdoptionComesTo | rpmalloc.c:1596-1635 | Every span that waits on the deferred-span stack when the owner takes it is in the cache at the end of the walk, whatever is pushed meanwhile |
| SpanProgress.EveryoneGetsHome | rpmalloc.c:2147-2484 | No operation is ever stuck: from every state the protocol can come to, some steps of the operations begun, and no new ones, bring every thread out of the allocator |
| SpanOwner.StepTake | rpmalloc.c:2147-2176 | The slow path of an allocation (swap in the span free list, or lay out another page of blocks) keeps the invariant |
| SpanOwner.StepExchange | rpmalloc.c:1376-1382 | Taking the deferred list with the exchange on the word keeps it |
| SpanOwner.StepInitialise | rpmalloc.c:1345-1372 | Making a cached span active keeps it; nothing of the span's former life survives |
| SpanOwner.StepPush | rpmalloc.c:2422-2436 | A free by the owner, with the span coming back on the partial list if it was full, keeps it |
| SpanOwner.StepUnlink | rpmalloc.c:2448-2450 | Unlinking a completely free span from the partial list and caching it keeps it |
| SpanOwner.StepAdopt | rpmalloc.c:1596-1610 | Adopting one of the class's spans on the deferred-span stack, whose link the pushing thread wrote into free_list, keeps it (the stack of all classes and of large and huge spans is in DeferredStack) |
| SpanRemote.StepLock | rpmalloc.c:2470-2473 | The exchange that takes the deferred list or finds it locked keeps it |
| SpanRemote.StepUnlock | rpmalloc.c:2475-2483 | Publishing the list, and handing the span over when it is complete, keeps it |
| SpanRemote.StepSwap | rpmalloc.c:2454-2461 | The compare-and-swap on span_free_deferred keeps it, failing spuriously or not |
| DeferredStack.PushThroughOk | rpmalloc.c:2454-2461 | A push that gets through on the stack of all spans is, to its own class, three steps of that class's protocol: another miss, another load, and through |
| DeferredStack.StepKeeps | rpmalloc.c:1596-1635 | Every step of the heap's one stack, pushes of spans of any class and of large and huge ones, the owner's exchange and its walk, keeps the invariant: links, stack, walk, the part of each class and the count agree |
| DeferredStack.EveryRun | rpmalloc.c:1596-1635 | So in every interleaving |
| DeferredStack.EachReachable | rpmalloc.c:2454-2461 | To each class such a run is a run of its own protocol: what is proved of the reachable states of one class holds for all classes on one stack |
| DeferredStack.WaitsOnce | rpmalloc.c:1596-1635 | A span of whatever kind that was pushed and not adopted is on the stack or left of the owner's walk, once; following the links the owner is always at the first of those left |
| DeferredStack.CountsAll | rpmalloc.c:1600-1620 | full_span_count is the fully utilised and handed-back spans of all classes and the large and huge spans in use |
| DeferredStack.NeverBelow | rpmalloc.c:1602-1620 | Whenever the count is taken down, by an adoption or a free by the owner, it is at least one |
| SpanMemory.SpanList.Add | rpmalloc.c:1089-1095 | The pointer operation puts the span in front of the list, links right both ways |
| SpanMemory.SpanList.PopHead | rpmalloc.c:1098-1103 | It takes the head off; the new head's prev is left stale, which the list's invariant allows |
| SpanMemory.SpanList.Unlink | rpmalloc.c:1106-1117 | It takes the given span out, wherever it is, although the head's prev may be stale |
| SpanMemory.FreeListPartialInit | rpmalloc.c:1315-1341 | The loop threads a list through block 1 up to the page's or the span's end, in address order; the count is one more than the list's length, at most block_count, and no other memory is written |
| SpanMemory.FreeListPop | rpmalloc.c:2139-2143 | Popping a threaded list gives its first block and leaves the list of the others |
| SpanMemory.ListFrame | rpmalloc.c:1330-1336 | A threaded list is not disturbed by writes outside its blocks |
| SuperSpan.Configured | rpmalloc.c:2928-2933 | The map count the set-up makes is the one requested, or 64, if that is whole pages, and otherwise one page |
| SuperSpanSafety.CarveOk | rpmalloc.c:1137-1145 | Reserved units become a span whose header says exactly those units; the master's flags are left to it |
| SuperSpanSafety.UnmapOk | rpmalloc.c:1257-1289 | Unmapping a piece takes its span count off remaining_spans; the region is released when that was the last, and had not been before |
| SuperSpanSafety.HoldOk | rpmalloc.c:2540-2551 | A span, or its tail, turned into reserve leaves headers and units in agreement |
| SuperSpanSafety.FreshOk | rpmalloc.c:1173-1179 | A new region is the master span, the heap's reserve and the rest, and remaining_spans is its size |
| SuperSpanSafety.MappedFill | rpmalloc.c:1257-1289 | Moving n units between places changes the number of mapped units by n exactly if one of the places is "unmapped" |
| SuperSpanSafety.MoveKeeps | rpmalloc.c:1149-1160 | Any move of a stretch of units, from the front of a reserve or out of a span, keeps every region, heap reserve and the global reserve in agreement |
| SuperSpanSafety.TakeHeapKeeps | rpmalloc.c:1149-1160 | _rpmalloc_span_map_from_reserve: conservation, and a span of the units asked for |
| SuperSpanSafety.TakeGlobalKeeps | rpmalloc.c:1061-1071 | _rpmalloc_global_get_reserved_spans: the same |
| SuperSpanSafety.UnmapSpanKeeps | rpmalloc.c:1257-1289 | _rpmalloc_span_unmap: the same |
| SuperSpanSafety.HoldSpanKeeps | rpmalloc.c:1588-1592 | _rpmalloc_heap_set_reserved_spans on the tail of a span: the same |
| SuperSpanTheorems.AlignBound | rpmalloc.c:1164-1169 | Rounding a request up to whole maps adds less than one map |
| SuperSpanTheorems.AlignWhole | rpmalloc.c:1164-1169 | And what is mapped is at least one map, and whole pages |
| SuperSpanTheorems.ShortExactly | rpmalloc.c:1233-1244 | What is taken from the global reserve is less than the request exactly if the heap has no reserve and its quota is below the request |
| SuperSpanTheorems.QuotaCovers | rpmalloc.c:2928-2933 | With a global reserve that never happens for a request of up to 63 spans |
| SuperSpanTheorems.MapNewKeeps | rpmalloc.c:1186-1219 | Mapping a new region, caching the heap's leftover reserve and unmapping the global one, keeps conservation and hands out the span asked for |
| SuperSpanTheorems.MapGlobalKeeps | rpmalloc.c:1228-1246 | So does serving from the global reserve |
| SuperSpanTheorems.MapKeeps | rpmalloc.c:1224-1253 | So does _rpmalloc_span_map, for every request up to 63 spans, with or without memory |
| SuperSpanTheorems.MapServes | rpmalloc.c:1186-1253 | _rpmalloc_span_map asks for memory, and fails for want of it, exactly if the heap reserve is too small and the global one out of use or too small; else the reserve that serves it, the heap's first, gives up the units and nothing is mapped; what a new region holds over the request is the heap's up to its quota, and the global reserve's beyond |
| SuperSpan.HeapsFit | rpmalloc.c:1919-1943 | A page larger than 16 heaps take always has room for 16: the count is never taken down, it stays 16 or becomes 256, and the spans for it fit the page |
| SuperSpanTheorems.NewHeapExactly | rpmalloc.c:1915-1985 | _rpmalloc_heap_allocate_new, with its heap and span counts worked out from page, span, header and heap size, loses spans exactly when a new page leaves more than the heap's quota and the global reserve holds something, but less than 16 heaps take |
| SuperSpanTheorems.NewHeapServes | rpmalloc.c:1915-1985 | A new heap's memory comes from the global reserve if that has room for 16 heaps, and otherwise from one new region, of a page if pages are large, of which the new heap's reserve gets what is left up to its quota; it fails exactly if there is neither |
| SuperSpanTheorems.NewHeapLoses | rpmalloc.c:1978-1983 | In that case the old global reserve belongs to nothing afterwards, and conservation is gone |
| SuperSpanTheorems.LosingRun | rpmalloc.c:1915-1985 | With every configuration whose pages leave more than the quota and whose 16 heaps take two spans or more, some run from no memory at all comes to that |
| SuperSpanTheorems.LosesExactly | rpmalloc.c:1915-1985 | So, in terms of the configuration alone: some run comes to a heap that loses spans exactly if pages leave more than the quota and 16 heaps take more than one span |
| SuperSpanTheorems.OverwriteExample | rpmalloc.c:1930-1983 | With the sizes of a 64-bit build and pages of 128 spans: a heap, two large spans, and a second heap, which loses the one span left in the global reserve |
| SuperSpanTheorems.Pages256 | rpmalloc.c:1935-1943 | With pages of 256 spans it does not happen: 256 heaps are made, which take 221 of them |
| SuperSpanTheorems.DefaultNeverLoses | rpmalloc.c:1930-1942 | With pages no larger than a span it does not happen |
| SuperSpanTheorems.FreeLargeKeeps | rpmalloc.c:2533-2556 | Freeing a large span keeps conservation: a span of more than one unit becomes the heap's reserve if that is empty and the span cache is, and otherwise it stays a span, for the caches |
| SuperSpanTheorems.EveryRun | rpmalloc.c:1186-1289 | Every run of mapping, heap creation with the orphan heaps that come along, freeing and unmapping in which no new heap overwrites the global reserve keeps it |
| SuperSpanTheorems.Conservation | rpmalloc.c:1257-1289 | At every moment of such a run remaining_spans is the number of units not unmapped, the region was released once if nothing is left and else not at all, and every unit is in exactly one place |
| SpanMapper.Mapper.MapFromReserve | rpmalloc.c:1149-1160 | The in-place operation is the step, and keeps conservation |
| SpanMapper.Mapper.GetReserved | rpmalloc.c:1061-1071 | The same for the global reserve |
| SpanMapper.Mapper.UnmapPiece | rpmalloc.c:1257-1289 | The same for unmapping; it reports the release exactly when nothing is mapped any more |
| SpanMapper.Mapper.MapAligned | rpmalloc.c:1186-1219 | The same for mapping a new region |
| SpanMapper.Mapper.Map | rpmalloc.c:1224-1253 | The same for _rpmalloc_span_map; without memory nothing changes |
| SpanAddresses.StepOnward | rpmalloc.c:1137-1289 | No operation on super-spans touches the header of a span other than the one it is asked to give up, and it makes at most one region |
| SpanAddresses.SpanInside | rpmalloc.c:1137-1160 | A span lies inside its region, which is not released, and at a span boundary |
| SpanAddresses.LaidOn | rpmalloc.c:1186-1222 | If new memory comes where nothing is mapped, regions in use stay apart and at span boundaries |
| SpanAddresses.HeadersApart | rpmalloc.c:1137-1160 | Two span headers cover memory apart |
| SpanAddresses.HeadersApartInRuns | rpmalloc.c:1186-1289 | So they do at every moment of every run of the super-span operations |
| GlobalCache.Limit | rpmalloc.c:1463-1465 | The limit of every span count is positive and within the array |
| GlobalCache.StoredKeeps | rpmalloc.c:1476-1493 | The first locked section appends a prefix, as long as the limit lets it be; the rest is left to the thread or, where pages are larger than spans, goes on the overflow list; nothing is lost |
| GlobalCache.SiftedKeeps | rpmalloc.c:1495-1506 | Between the sections every span left over is unmapped or on the keep list |
| GlobalCache.SiftedExactly | rpmalloc.c:1495-1506 | Kept are exactly the masters with subspans out, last first; exactly the others are unmapped |
| GlobalCache.TradedKeeps | rpmalloc.c:1512-1526 | The replacement loop: every cached and kept span is cached, still kept or unmapped, and as many are cached as before |
| GlobalCache.TradedExactly | rpmalloc.c:1512-1526 | How many are traded: each look that finds a cached span that can be unmapped trades it for the next kept span, every other goes on to the next slot, and it stops when it has passed all slots or nothing is kept any more; what is left of the keep list is its end |
| GlobalCache.SettledKeeps | rpmalloc.c:1508-1537 | The second locked section, with what is still kept put on the overflow list |
| GlobalCache.ExtractedKeeps | rpmalloc.c:1541-1572 | An extract removes exactly what it returns, which is what was asked for or all there is |
| GlobalCache.ExtractedExactly | rpmalloc.c:1541-1572 | It comes from the top of the array, and from the front of the overflow list only once the array is empty |
| GlobalCache.NextKeeps | rpmalloc.c:1462-1572 | A step of any thread, with pages of any size, moves spans between cache, overflow, hands and the unmapped, and leaves the count within the limit |
| GlobalCache.EveryRun | rpmalloc.c:1462-1572 | In every interleaving of any number of inserts and extracts each span is in one place, as often as at the start |
| SpanCaches.SharedCache.Store | rpmalloc.c:1471-1493 | The copying loop on the array, and the loop onto the overflow list, are the first section |
| SpanCaches.SharedCache.Settle | rpmalloc.c:1508-1537 | The replacement loop on the array is the second |
| SpanCaches.SharedCache.Extract | rpmalloc.c:1541-1572 | So is the extract |
| SpanCaches.Sift | rpmalloc.c:1495-1506 | The loop that builds the keep list, last first |
| SpanCaches.InsertSpans | rpmalloc.c:1462-1538 | An undisturbed insert: every span given or cached before is cached, in overflow or unmapped |
| HeapCaches.ThreadLimit | rpmalloc.c:1709-1733 | A thread cache's limit exceeds what is transferred at it, and fits its array |
| HeapCaches.InsertedIs | rpmalloc.c:1462-1538 | An insert as one step is the three steps of a thread nobody disturbs, as the runs of any number of threads have them |
| HeapCaches.ExtractedIs | rpmalloc.c:1541-1572 | And an extract is its one step |
| HeapCaches.InsertedKeeps | rpmalloc.c:1462-1538 | An insert as one step loses and doubles nothing and stays within the limit |
| HeapCaches.RefillExactly | rpmalloc.c:1797-1806 | Refilling over a thread cache is lossless exactly if it was empty |
| HeapCaches.Returned | rpmalloc.c:1700-1748 | A span nobody else has goes into the caches: still no span is in two places, or in use and in one |
| HeapCaches.HandedOut | rpmalloc.c:1752-1807 | What the caches give was in them once and not in use, and is now in use and nowhere else |
| HeapCaches.HeapCache.InsertShared | rpmalloc.c:1462-1538 | The global cache of n units takes the spans, loses and doubles none, and holds only spans whose header says n; if all have room in its array they are in it, in order, and nothing is unmapped |
| HeapCaches.HeapCache.Push | rpmalloc.c:1709-1740 | A span whose header says n units goes on the stack of n; at the limit exactly the transfer count comes off the top, and the count is below the limit again |
| HeapCaches.HeapCache.Insert | rpmalloc.c:1700-1748 | _rpmalloc_heap_cache_insert: the span is on top of its stack, of which the transfer count goes to the global cache exactly when it comes to the limit; nothing is unmapped while that has room; and no span of any count that was cached is missing afterwards |
| HeapCaches.HeapCache.Free | rpmalloc.c:2509-2556 | A span in use goes back into the caches, on its stack, and is in use no more |
| HeapCaches.HeapCache.Defer | rpmalloc.c:2454-2461 | A span another thread frees goes in front of the deferred list, and is in use no more |
| HeapCaches.HeapCache.Release | rpmalloc.c:1293-1310 | The class keeps a span that was in use; the one it kept goes on the stack of single spans; none is lost |
| HeapCaches.HeapCache.TakeDeferred | rpmalloc.c:1596-1635 | The head of the deferred list comes off it; a huge span is unmapped and never cached |
| HeapCaches.HeapCache.Adopt | rpmalloc.c:1596-1635 | Adopting the deferred spans leaves none, conserves them, unmaps the huge ones and no other; what is handed out is the first single span on the list, if one is asked for, and every span count that was cached still is |
| HeapCaches.HeapCache.Fill | rpmalloc.c:1789-1807 | The refill, called only on an empty thread cache, conserves spans |
| HeapCaches.HeapCache.Extract | rpmalloc.c:1752-1807 | Thread cache, deferred spans, global cache, in that order: the top of the thread cache if there is one; none only if no span of n units was in any of the three; the thread cache is empty whenever the refill runs, no span is lost, and the header of what is found says n units |
| HeapCaches.HeapCache.TakeKept | rpmalloc.c:1844-1849 | A class that keeps a span gives it up, and keeps the top of the stack of single spans instead, or none |
| HeapCaches.HeapCache.Search | rpmalloc.c:1853-1880 | A cached span is found of the least count from the one asked for to the limit of which any was cached, in whichever cache; the reserve serves only the count asked for, when nothing cached could; and new memory is the answer only if no span of any of these counts was cached and the reserve was too small |
| HeapCaches.HeapCache.ExtractNew | rpmalloc.c:1838-1886 | A class that keeps a span gets that span; otherwise the search decides, so that memory is mapped only if no span up to half as much again was cached. What is found has a header of at least the units asked for, was in one place and in no use, and is afterwards in use and in no place |
| SizeClass.CountFalls | rpmalloc.c:2738-2743 | A larger class has no more blocks to a span |
| SizeClass.SmallApart | rpmalloc.c:2745-2756 | No medium class in use has as many blocks as a small one, so the merging never reaches the small classes |
| SizeClass.RepIs | rpmalloc.c:2745-2756 | A medium class ends up as the last class with its block count |
| SizeClass.MergedIs | rpmalloc.c:2745-2756 | Where the merging loop stops, exactly the classes with the new class's count have been taken over |
| SizeClass.Classes.Adjust | rpmalloc.c:2738-2757 | The in-place merging loop leaves the table as the definition says |
| SizeClass.Classes.SetMedium | rpmalloc.c:2957-2969 | The medium classes stop exactly at the first that would not leave two blocks to a span or is over the medium maximum, and the medium limit is the last one's size |
| SizeClass.Classes.Initialise | rpmalloc.c:2948-2969 | The set-up of all classes: as many medium ones as fit |
| SizeClass.ClassesFit | rpmalloc.c:2738-2757 | class_idx is a fixpoint; blocks are no smaller than the class asked for; block_count * block_size and the header fit the span, one block more does not, and there are at least two |
| SizeClass.ChosenFits | rpmalloc.c:2198-2222 | Every request up to the medium limit gets a class in its final form with blocks of at least the request |
| Blocks.BlockInside | rpmalloc.c:2147-2194 | Every block lies behind the 128-byte header, inside its span |
| Blocks.GrantedHolds | rpmalloc.c:2225-2293 | Small, medium, large or huge, a block of the class, the spans or the pages the request comes to holds the request |
| Blocks.Recovered | rpmalloc.c:2487-2494 | From any pointer into a block less than a span from the span's start, masking finds the span, realigning the block's start, and the usable size is what is left of the block |
| Blocks.Disjoint | rpmalloc.c:2147-2194 | Blocks of one span with different indices, or of spans apart, do not overlap |
| SpanUse.StepMoves | rpmalloc.c:2139-2194 | Every step of the block protocol: an allocation gives the user a block of an active span that no user held, a free takes the freed one away, a retired span goes to the caches, and nothing else about users, phases and caches changes |
| Allocator.NextKeeps | rpmalloc.c:2284-2411 | Every step of the whole allocator, the block protocol of any number of heaps and classes, large and huge spans, pages mapped for an alignment, caches, reserves and regions, keeps its invariant: no span has two uses, each has a header with the units its use needs, and all memory lies apart |
| Allocator.SupplyServed | rpmalloc.c:1186-1253 | Whenever the super-spans can map a span or make a heap, the composed allocator can, wherever the kernel has room |
| Allocator.HugeServed | rpmalloc.c:2252-2285 | A request for more than large spans hold is served by pages of its own, wherever the kernel has room |
| Allocator.StartKeeps | rpmalloc.c:2770-2980 | Before anything is mapped the invariant holds |
| Allocator.EveryRun | rpmalloc.c:2284-2293 | So it holds in every state of every run |
| Allocator.LiveChange | rpmalloc.c:2284-2293 | A step makes the allocation it returns, which was not live, frees the one it is asked to free, and leaves every other live |
| Allocator.LiveStays | rpmalloc.c:2284-2293 | An allocation keeps its address and its block until it is freed |
| Allocator.LiveApart | rpmalloc.c:2284-2293 | Any two live allocations lie in spans apart, or are two blocks of one span |
| Allocator.LiveHolds | rpmalloc.c:2198-2411 | What is live is granted: from the pointer on the block holds what was asked for, a large one because the header of the span taken says so, and pages mapped for an alignment because they passed the loop's test |
| Allocator.EveryLedger | rpmalloc.c:2198-2293 | In every run each live allocation is one its recorded request was made for |
| Allocator.RequestsHold | rpmalloc.c:2198-2411 | So at every moment of every run every live allocation, small ones included, has the bytes it was asked for behind its pointer, in its block |
| Allocator.NoOverlap | rpmalloc.c:2284-2293 | At every moment of every run any two live allocations are bytes apart, and each lies behind its span's header, inside the span |
| AllocatorCaches.LargeSpans | rpmalloc.c:2226-2232 | A large request comes to 1 to 63 spans |
| AllocatorCaches.TakeLarge | rpmalloc.c:2225-2250 | A large request served by the heap's caches as they are in place: what they hand out makes the step of the whole possible, with the units by its header and no other use; memory is mapped only if no span within the search limit was cached |
| AllocatorCaches.TakeSpan | rpmalloc.c:2185-2193 | So is a class's request for a span: what is found makes the class's step possible, with one unit by its header and no other use; the class's own span is taken if it keeps one, and memory mapped only if no single span was cached |
| AllocatorCaches.GiveLarge | rpmalloc.c:2533-2556 | A large span freed into the heap's caches is the step of the whole |
| AllocatorCaches.DeferLarge | rpmalloc.c:2509-2523 | So is one that another thread puts on the deferred list |
| AllocatorCaches.GiveSpan | rpmalloc.c:1293-1310 | A span the block protocol releases goes to the class in the heap's caches: that too is the step of the whole |
| AlignedBlocks.StartAligned | rpmalloc.c:2311-2319 | A block is aligned, up to the header size, when its block size is |
| AlignedBlocks.SizesAligned | rpmalloc.c:2311-2319 | Block sizes are multiples of 16, and the one chosen for a multiple of 128 is a multiple of 128 |
| AlignedBlocks.AsItStands | rpmalloc.c:2297-2319 | The two shortcuts return an aligned block |
| AlignedBlocks.MovedUp | rpmalloc.c:2323-2332 | Moving up in a block of size + alignment gives an aligned pointer with the size behind it, within a span of the span's start |
| AlignedBlocks.FitIsAligned | rpmalloc.c:2379-2386 | A mapping that passes the loop's test is an aligned block |
| AlignedBlocks.EnoughFits | rpmalloc.c:2379-2386 | A mapping of a span's worth of pages with room for the alignment passes it |
| AlignedBlocks.LimitIsEnough | rpmalloc.c:2352-2365 | The page limit allows for both |
| AlignedBlocks.MapPages | rpmalloc.c:2352-2394 | So the retry loop ends with an aligned block; it gives null exactly if the kernel refuses a page count within its limits, after mapping every smaller one from its first on in vain; it never gives up at the limit |
| AlignedBlocks.AlignedAllocate | rpmalloc.c:2296-2411 | For every power of two below the span size and every size: aligned, inside its block, recoverable; null exactly if the allocator refuses the one size it is asked for, or the loop over pages ends with null |
| AlignedBlocks.AlignedRecovered | rpmalloc.c:2718-2734 | The pointer leads back to its block, and its usable size is at least the size |
| AlignedBlocks.SpanAlignmentLost | rpmalloc.c:2323-2332 | At every power of two from the span size on, which the page-size branch lets through when pages are that large, the aligned pointer lies a span or more past the block's header, and masking finds another one |
| Reallocation.MaskTest | rpmalloc.c:2631-2634 | For every power-of-two span size the test with the span mask less one passes any total but zero and one span |
| Reallocation.SpansSuffice | rpmalloc.c:2631-2634 | The spans a large block is taken to need are never too few |
| Reallocation.KeptHolds | rpmalloc.c:2610-2662 | A block that is kept has the capacity for the new size |
| Reallocation.KeepsExactly | rpmalloc.c:2610-2662 | A block is kept in a span exactly if it holds the new size; a large one exactly if its spans hold that and the header with something over, or are one span exactly full, and that is no less than half the old size; a huge one exactly if its pages hold it and it needs no less than half of them |
| Reallocation.Request | rpmalloc.c:2670-2673 | What is asked for is the new size, or, for a block that grows by less, three eighths more than the old one, rounded down; never less than the new size |
| Reallocation.Keep | rpmalloc.c:2623-2662 | Keeping the block moves the data to its start and changes nothing outside the block |
| Reallocation.Replace | rpmalloc.c:2670-2681 | A new block gets the data; old and new do not overlap where they are copied |
| Reallocation.Reallocate | rpmalloc.c:2610-2682 | A block that may be kept is, at its start; otherwise the allocator is asked, and its block or null is the result. A result holds the new size, has the first min(old usable, new size) bytes, and no byte outside its block changed; null changes nothing |
| PupOrder.StrictWeak | pup.c:262-276 | Every lane's order is a strict weak order |
| PupOrder.FindGE | pup.c:423-443 | The search finds the first row not below the needle |
| PupOrder.Congruence | pup.c:282-323 | Logs with the same newest rows stay so when the same is put behind them |
| PupOrder.DigestUnique | pup.c:325-340 | A sorted run of the newest rows of a log is determined by the log |
| PupMerge.InsertionSort | pup.c:282-323 | A stable sort: ascending, and the newest row of every key is the same |
| PupMerge.Dedup | pup.c:282-323 | Keep-last deduplication: strictly ascending, the newest rows the same |
| PupMerge.AnySortWillDo | pup.c:269-276 | On the lanes whose order is total any sort and deduplication gives the same rows |
| PupMerge.Pull | pup.c:642-673 | Taking the least head, the youngest of equals, and advancing every source past it gives the newest row of the least key and leaves the rest |
| PupMerge.Merge | pup.c:325-340 | The merge of sorted runs is the sorted run of the newest rows of them all |
| PupToc.PageIndex | pup.c:352-369 | The page chosen is the last whose first row is not above the needle, or the first |
| PupToc.KeyedNeverStraddles | pup.c:346-369 | On the keyed lanes the cell shortcut never fires, and no key straddles |
| PupToc.UniqueNeverStraddles | pup.c:346-369 | With one row a key no key straddles |
| PupToc.LateExactly | pup.c:346-369 | The cell shortcut comes too late exactly if the run straddles: it has rows of the key before a page that starts with one, and the first of them does not itself start a page after the first with a val over 0 |
| PupToc.RangeStartExact | pup.c:582-589 | A range drops only rows below its bound exactly if its key does not straddle |
| PupToc.LookupExact | pup.c:552-563 | The paged lookup hits exactly when a search of the whole run does, and gives the same row exactly if the key does not straddle |
| PupToc.StraddleExample | pup.c:346-351 | For every page width, two pages of rows of one key on wh128: the range starts late by a whole page and the lookup gives the second page's first row |
| PupToc.OnTwoPagesExample | pup.c:346-351 | A key on several pages does not straddle when its first row starts its page |
| PupHandle.Handle.Unview | pup.c:120-132 | Every view is detached and nview is zero |
| PupHandle.Handle.Moved | pup.c:137-140 | And the epoch goes up |
| PupHandle.Handle.RunView | pup.c:145-180 | The view handed out wraps the run's present mapping; views handed out before still do; refused on a closed handle and past the runs |
| PupHandle.Handle.Sync | pup.c:282-323 | Sorting, deduplicating and folding the memtable change no key's newest row; folded, it is one sorted part |
| PupHandle.Handle.Seal | pup.c:498-517 | The memtable becomes the youngest run; the others are as they were |
| PupHandle.Handle.Compact | pup.c:325-340 | Merging the youngest m runs makes them one, with their newest rows in order, leaves the older ones as they were, and changes no key's newest row |
| PupHandle.Handle.Put | pup.c:498-517 | A put adds its row to the log and carries out the plan, with nothing attached while runs move; refused, on a closed or read-only handle or while a range runs, it changes nothing |
| PupHandle.Handle.Commit | pup.c:519-537 | A commit carries out the plan, as sealing the memtable, and changes no key's newest row; refused as a put is, it changes nothing |
| PupHandle.Handle.Drop | pup.c:699-722 | Every run is gone, or the one named and the others are there in order, with the memtable as it was, every view detached and the cursor disarmed; no such run, or refused, none goes |
| PupHandle.Handle.Close | pup.c:724-738 | The handle is emptied, once: no runs, no memtable, no views, no cursor; barred while a range runs, and the second time |
| PupHandle.Handle.Cut | pup.c:423-444 | The cursor's entries hold exactly the rows past its bound |
| PupHandle.Handle.Seek | pup.c:625-640 | The cursor is armed at the needle |
| PupHandle.Handle.Next | pup.c:641-673 | A pull returns the newest row of the least key past the bound, or there is none and the cursor disarms; cut again when the epoch moved |
| PupHandle.Handle.Get | pup.c:544-565 | The youngest source with the key answers, through the page index |
| PupHandle.Handle.RangeCut | pup.c:577-591 | The scan's entries hold exactly the rows in range, unless the bound straddles; then what they lack are rows of a straddling run before the place the range starts in it |
| PupHandle.Handle.RangeScan | pup.c:570-621 | A scan emits the newest rows in range as of its start, strictly ascending: all of them, or those up to the first callback that stops it, and it ends with that one's answer. On wh128, straddling or not, it emits newest rows in range, ascending, and lacks only those dropped by a straddling run. Whatever its callbacks call, runs, memtable, epoch and guard stand still |
| PupHandle.Handle.Drain | pup.c:595-619 | The loop of a scan, with callbacks that re-enter the handle: it ends with the first callback that stops it, or when the rows have run out |
| PupHandle.EndedBy | pup.c:211-222 | The answer a scan ended with is that of the first callback that did not ask for more, and it was the last called; a scan whose callbacks never stop it is not stopped |
| PupHandle.QuietTurns | pup.c:595-619 | What the callbacks of a scan do to the cursor is what their calls do one after the other; callbacks that neither seek, nor pull, nor scan leave it where it was |
| PupHandle.TrimRange | pup.c:582-590 | A source's entry holds exactly its rows in the range that are not before the place the page index gives |
| PupHandle.KeyedNoStraddle | pup.c:582-589 | On the keyed lanes the condition under which a scan is exact always holds |
| PupTheorems.Replay | pup.c:498-537 | After any history of puts, syncs, seals and merges the index stands for the log of its puts |
| PupTheorems.GetIsLastPut | pup.c:544-565 | On a keyed lane a lookup gives the last put of the key, or nothing if there was none |
| PupTheorems.GetAfterHistory | pup.c:544-565 | The same at the end of any history without a drop |
| PupTheorems.CursorStable | pup.c:641-673 | Across any puts and commits the pulled rows strictly ascend, never below the needle, each the newest of its key when pulled; of the keys present at the seek each has been returned or lies past the cursor, and at exhaustion all have been |
| PupTheorems.DisarmedByExhaustion | pup.c:641-673 | The cursor disarms only by reporting exhaustion |
| PupTheorems.EmissionUnique | pup.c:570-621 | What a completed scan emits is determined by the log |
| PupTheorems.EmissionPrefix | pup.c:570-621 | A stopped scan emits a prefix of that |
| PupTheorems.Step | pup.c:498-738 | Any leaf called on a handle, run views, drops and scans with their callbacks included: it is accepted exactly when it should be, is the step of a history its result says, and answers as the log then says |
| PupTheorems.Drive | pup.c:498-738 | Any sequence of leaf calls plays out call by call; buffers are made on the way, to callbacks too, and none that was detached comes back |
| PupTheorems.PlayedHistory | pup.c:498-738 | What was played is a history, with the event each call and its result stand for |
| PupTheorems.AcceptedPuts | pup.c:498-517 | The puts of that history are the rows put, if the handle is writable, and none otherwise |
| PupTheorems.SessionLog | pup.c:498-537 | After any calls but drop and close the log is, newest row by newest row, the old one with the rows put |
| PupTheorems.Session | pup.c:498-738 | After any such calls on an open keyed handle a lookup gives the last put of the key, and every buffer handed out, to the callbacks of scans too, is detached or wraps the run it was made for, which is mapped |
| Ustar.ParseField | require.c:62 | Reading back a numeric field gives the number |
| Ustar.FieldWidth | jsrcpack.js:19-23 | A number below 8^(width-1) takes exactly width - 1 digits |
| Ustar.LayoutConstants | jsrcpack.js:42-53 | Mode 0000644, owner and group 0000000, time 00000000000, type flag 0, the magic ustar with its NUL and version 00 stand in every header, NULs behind each and where there is no field |
| Ustar.ChecksumFits | jsrcpack.js:57 | The checksum always fits six octal digits, and reads back as the sum |
| Ustar.PartsJoin | jsrcpack.js:31-41 | Name and prefix fit their fields, have no NUL and join to the path |
| Archive.RoundExact | jsrcpack.js:78 | The 32-bit rounding to 512 is right exactly while the size plus 511 is below 2^31 |
| Archive.Octal | jsrcpack.js:19-23 | The padding loop gives the octal field |
| Archive.FindCut | jsrcpack.js:34-38 | The search finds the first slash that leaves both parts short enough, or none |
| Archive.SumBytes | jsrcpack.js:55-56 | The sum of the header's 512 bytes |
| Archive.WriteHeader | jsrcpack.js:30-60 | The header written into the zeroed buffer is the ustar header of path and size, nothing else changes; it fails exactly for the paths that do not fit, and then changes nothing |
| Archive.WriteEntry | jsrcpack.js:81-86 | For every size, an entry goes behind what was written and the rest stays blank; it fails exactly if the path or size does not fit or, as where padding went wrong in 32 bits, the buffer is too short |
| Archive.Pack | jsrcpack.js:64-89 | For all files, pack lays out their archive, or fails exactly if a path does not fit, a size is too large to be padded, or the engine makes no array that long |
| Unarchive.PackStr | require.c:49-53 | The bytes of a field up to its NUL |
| Unarchive.PackUntar | require.c:56-74 | The reading loop is the definition |
| Unarchive.PaddedReads | require.c:62 | A size field with blanks around it: nothing is zero, octal digits are the number up to the first byte that is none, anything else is no number |
| Unarchive.OthersSkipped | require.c:63-72 | An entry that is no regular file is passed over: the rest is read as if it were not there |
| Unarchive.HeaderReads | require.c:58-63 | Name, prefix, size and type of a header read back |
| Unarchive.UntarStep | require.c:58-73 | One turn of the loop, where an entry stands, takes the reader over that file and gives it |
| Unarchive.EndsAt | require.c:58 | After the last entry it stops, with the end blocks unread |
| Unarchive.RoundTrip | require.c:56-74 | packUntar on what pack built gives the same paths and bytes in the same order |
| Unarchive.ChecksumReads | jsrcpack.js:55-59 | Every header carries its own checksum: six digits, NUL, space |
| Bytes.CopyWithin | buf.c:85 | Overlapping moves give what was there before |
| Buffer.Buf.Feed | buf.c:38-44 | Appends to DATA, or NOROOM exactly if it does not fit, and then nothing changes |
| Buffer.Buf.Fed | buf.c:55-59 | Commits bytes written into IDLE by hand |
| Buffer.Buf.Take | buf.c:61-71 | The front of DATA, or BADARG exactly if there is not that much |
| Buffer.Buf.Shed | buf.c:73-77 | Drops bytes from the end of DATA |
| Buffer.Buf.Pop | buf.c:78-81 | The last byte, or NODATA |
| Buffer.Buf.Reset | buf.c:82 | DATA is empty and everything is room |
| Buffer.Buf.Shift | buf.c:83-89 | Compacting keeps DATA |
| Buffer.Buf.Grow | buf.c:102-110 | Growing keeps PAST and DATA; a smaller size does nothing |
| Buffer.Buf.Splice | buf.c:90-101 | An edit within DATA replaces the cut bytes by the paste; errors exactly where the code throws, and then nothing changes |
| Buffer.PasteKept | buf.c:97-99 | The paste of a buffer's own bytes is what the caller passed, whatever they are, exactly when it is empty, nothing moves, or the tail lands clear of it |
| Buffer.SelfPaste | buf.c:97-99 | A buffer spliced with its own tail: other bytes come out |
| SocketSafety.RunKeeps | net.c:313-332 | Whatever handlers call, the FIFO law holds, nothing is sent, and nothing is accepted once ending or closed |
| SocketSafety.PumpedKeeps | net.c:286-291 | The send loop moves bytes from the queue's front to what was sent |
| SocketSafety.FlushedKeeps | net.c:285-298 | A flush puts a FIN over queued bytes into the log exactly if its 'drain' handlers, on an open socket not yet ending, write and then end; and a FIN on a closed fd exactly in the case stated |
| SocketSafety.PolledKeeps | net.c:268-281 | The same for a whole poll; the poll loop forgets the fd exactly when the socket is closed |
| SocketSafety.EveryRun | net.c:255-333 | In every run bytes sent and queued are the accepted writes in order, the fd is closed and 'close' told at most once, and at most one FIN is sent |
| SocketSafety.LateFinExactly | net.c:293-297 | A run has a FIN over queued bytes exactly if one of its events is of that kind |
| SocketSafety.DeadFinExactly | net.c:293-297 | A run has a FIN on a closed fd exactly if one of its events is of that kind, and then one |
| SocketSafety.FinMeansSent | net.c:285-298 | Otherwise, once the FIN is sent, everything accepted has been sent |
| SocketSafety.QuietDrains | net.c:293-297 | Drain handlers that do not end the socket over bytes they wrote never make it so |
| SocketSafety.OvertakenExample | net.c:293-297 | A drain handler that writes a byte and ends: the FIN leaves first |
| SocketSafety.DestroyedExample | net.c:293-297 | A drain handler that destroys: the FIN follows the close |
| SocketSafety.PumpedExactly | net.c:286-291 | The send loop sends everything queued, or all the kernel takes, and throws exactly if it comes to a send that fails |
| SocketSafety.FlushComesTo | net.c:285-298 | A flush that empties the queue tells 'drain' and leaves a socket that is ending, or comes to end, with its FIN sent; one that throws closes the socket; else some bytes have left and nothing else has happened |
| SocketSafety.ReadEndComesTo | net.c:327-332 | The end of the other side is told once, and the socket ends too |
| SocketSafety.ReadableComesTo | net.c:299-306 | What was received is told, up to what the read buffer holds; nothing received is the end of the other side; a failed read closes the socket |
| SocketSafety.PollComesTo | net.c:268-281 | After its flush, a poll tells what was read, hears the end, from a read or from a hang-up with nothing to read, and closes on a failed read; on an error event it tells that and closes, and a flush that closed ends it |
| SocketSafety.PolledMask | net.c:268-306 | The mask a poll answers with asks for output exactly if bytes are queued or a FIN is pending, for input if the read side is open, and for something unless the socket is done |
| SocketSafety.PollEnds | net.c:268-298 | A poll that may write, on a socket that is ending, sends the FIN once everything queued is sent |
| SocketSafety.EndCompletes | net.c:255-333 | In every run: a socket that is ending has sent every accepted byte and its FIN after a poll that may write and a kernel that takes what is queued, and is closed if the other side ends too |
| SocketSafety.WriteComesTo | net.c:313-333 | write, end and destroy from a handler do to queue, accepted bytes and log what they say, and nothing on a socket that is ending or closed |
| Sockets.Socket.MakeRoom | net.c:317-321 | Compacting and growing the FIFO keeps its bytes and makes room, always; the capacity grows only when compacting does not do, and then at least doubles |
| Sockets.Socket.Send | net.c:313-325 | write appends to the FIFO unless the socket is ending or closed, and its result is the hint to hold back |
| Sockets.Socket.Pump | net.c:286-292 | The send loop on the buffer is the model's |
| Sockets.Socket.Flush | net.c:285-298 | So is the flush, with handlers re-entering: without a throw an emptied queue leaves an ending socket with its FIN sent |
| Sockets.Socket.Poll | net.c:268-306 | So is the poll, and the mask it answers with is that of the state it leaves |
| Sockets.Drive | net.c:255-333 | A socket taken through any run of calls and polls ends as the model says |
| MapOwner.IdentParts | io.c:571-573 | Slot and generation unpack again, the generation as far as the word has room |
| MapOwner.IdentsDiffer | io.c:568-573 | Idents of two slots, or of an earlier generation and one that fits, differ |
| MapSafety.MapSlotKeeps | io.c:612-676 | A slotted map keeps the invariant, error paths included |
| MapSafety.MapPlainKeeps | io.c:636-676 | So does a once-map or anonymous map |
| MapSafety.DieSlottedKeeps | io.c:576-589 | So does the death of a slotted wrapper |
| MapSafety.UnwrapPins | io.c:522-529 | The pin counters count the live wrappers, and their decrements never stop short |
| MapSafety.EveryRun | io.c:571-689 | So does every history of maps, early unmaps, slot reuse and wrapper deaths |
| MapSafety.UnmappedOnce | io.c:576-607 | No mapping is unmapped twice, or while it is in use; the pin counters are the numbers of live wrappers |
| MapSafety.NoneLost | io.c:612-676 | Every mapping made is in its slot, in its wrapper's hands or unmapped |
| MapSafety.DieExactly | io.c:576-589 | A dying wrapper unmaps exactly when the slot has its base and its generation, and the generation fits the ident; and then its own mapping, or one C code made |
| MapSafety.NeverALaterOne | io.c:568-589 | So it never unmaps a mapping JS made under a later generation |
| MapSafety.OwnExactly | io.c:576-589 | While its mapping is in place its death unmaps it, exactly as long as generations fit the ident |
| MapSafety.InsideExample | io.c:576-589 | A mapping made by C code in the same slot at the same address is taken away by an old wrapper |
| MapSafety.MunmapPlainNothing | io.c:683-689 | An early unmap of a once-map or anonymous map does nothing |
| MapSafety.MunmapExactly | io.c:683-689 | An early unmap releases the mapping of the slot with that base, once, and empties that slot and no other; if no slot has the base nothing changes |
| MapSafety.MapSlotGives | io.c:612-676 | A slotted map puts a new mapping with the next generation in that slot, pins twice, and changes no other slot |
| MapSafety.FailedMap | io.c:636-676 | A map that fails half way leaves slots, wrappers and pins as they were, and what it mapped unmapped |
| MapSafety.MapUnmapDie | io.c:576-689 | Map, early unmap, death of the wrapper: the mapping is released once, and slots, wrappers and pins are as before |
| MapSafety.MapDie | io.c:576-676 | So they are after map and death, while the generation fits |
| MapSafety.MapPlainDie | io.c:576-607 | And after map and death of a once-map or anonymous map |
| Maps.Maps.TakeIdent | io.c:571-573 | The ident leads back to its slot and generation and, while the generation fits, is none that any slot was given before |
| Maps.Maps.MmapSlot | io.c:612-676 | io._mmap on the tables is the step |
| Maps.Maps.MmapPlain | io.c:636-732 | So is the map of a once-map or anonymous map |
| Maps.Maps.Munmap | io.c:683-689 | So is io._munmap, with its search of the slots: the slot found is empty and its mapping released, or nothing changes |
| Maps.Maps.Free | io.c:576-607 | So are the free functions |
| Maps.Play | io.c:568-689 | Each event of a history, what C code maps and unmaps included, is its step on the tables in place |
| Maps.Drive | io.c:568-689 | The tables taken through any history end as the model says |

## Left out

- SpanTheorems.BlockInOnePlace: for one size class of one heap; steps are sequentially consistent, with spurious compare-and-swap failures. Weaker memory orders are not modelled.
- SpanTheorems.CountersAtRest: `full_span_count` is counted for one class here; `DeferredStack.CountsAll` has all of it.
- DeferredStack.EveryRun: in a class a thread pushes no span while it pushes another; that one thread may be pushing spans of two classes at once is more than the code does.
- SpanProgress.EveryoneGetsHome: that some steps bring every thread out, not that every scheduler takes them: a thread that spins waits for the one that holds the word, which has to be let run.
- SpanOwner.StepTake: how many blocks one page lays out is any number up to what is left; `SpanMemory.FreeListPartialInit` says which.
- SuperSpanTheorems.EveryRun: each operation is one step; a heap is used by its owner only and the global reserve under its lock, so no finer interleaving reaches another state.
- GlobalCache.EveryRun: without the build option for unlimited caches.
- HeapCaches.HeapCache.ExtractNew: the global caches are values that only this heap changes during a call; `GlobalCache.EveryRun` has the interleavings. What the heap's reserve holds is given as a number, as it does not change during a search; `SuperSpanTheorems.MapServes` says what it then gives. The branch of a heap being finalised is not modelled.
- SizeClass.ClassesFit: for span sizes of 4 KiB to 1 MiB, where block counts fit 16 bits.
- Allocator.NoOverlap: what the kernel promises is taken as given: new memory lies at the alignment asked for and clear of what is mapped. How many heaps, classes and spans a class may use is given at the start, as any numbers; a heap's own span is never unmapped, and finalisation is not modelled. A run has no new heap that overwrites the global reserve (see `SuperSpanTheorems.LosesExactly`). Sizes near 2^64, whose sums wrap, are not modelled.
- AllocatorCaches.TakeLarge: for one heap's caches at a time, each call one step of the whole; spans of other heaps and those in flight are in the caches of the whole but not in this heap's.
- AlignedBlocks.AlignedAllocate: alignments at or above the span size are outside it: past the page size the code refuses them, up to it the pointer is lost (see `AlignedBlocks.SpanAlignmentLost`). What the allocator and the kernel return for each size is given as a function.
- Reallocation.Reallocate: without the flags and the explicit old size of the aligned entry points; a null pointer goes straight to the allocator.
- PupHandle.Handle.Put: what libdog decides (when to collapse, seal and merge, and which youngest runs) is a plan the environment chooses; a failing write and too many runs have no outcome of their own; the 64-bit epoch does not wrap.
- PupHandle.Handle.RunView: an application that transfers a view's buffer itself is not modelled.
- PupHandle.Handle.RangeScan: one handle; the table of open handles, and one handle reached from another's callback, are not modelled.
- PupToc.LookupExact: on wh128 the code returns the cell of the page index; the model reads it as the row the cell copies.
- PupMerge.Top: libdog's heap is not part of this model; its contract (the least head, the youngest of equals) is implemented by a scan.
- Unarchive.RoundTrip: paths are ASCII without NUL, relative, not ending in a slash, as the directory walk lists them. A size field that is no octal number, or that takes the reader backwards, ends the model's run as `Wild`.
- Archive.Pack: walking the directory, hashing, deflating and the 16-byte preamble are not modelled. The longest array the engine makes is taken to be 2^31 - 1 bytes.
- Buffer.Buf.Grow: without the hook for a mapped backing.
- SocketSafety.EveryRun: handlers do not throw, and `pol.more` does not throw on an open socket; the routing of events by the poll loop is not modelled.
- MapSafety.EveryRun: the per-slot counter itself does not wrap at 2^64; collections forced by the pin marks are deaths like any other. The table has 1024 slots.
- MapOwner.IdentParts: the bits of the slot are added rather than or-ed in, which is the same while they are clear.
- `normalize`, module resolution and the extraction cache of `require.c`.
- Aligned reallocation, `calloc`, statistics, first-class heaps, heap and process finalisation, huge pages beyond the reserves, Windows and macOS paths of `rpmalloc.c`.
- The thin leaves over libdog and abc (packing, weaving, hashing, tokenising, zip, http, git), the terminal, the timer wheel, argument gates and the JS engine: their work is in code that is not part of this repository, or they would add easy members only.
